/**
 * internal/dto/mapper.go: turning the decoded configuration into domain entities, resolving
 * every repository a job names and collecting the names that resolve to nothing.
 */
module Mapper {
  import opened Wrappers
  import opened Strings
  import opened Seqs
  import E = Entity
  import D = Dto

  /** The repository names a job refers to: To for a backup job, From and To for a copy job. */
  function Referenced(j: D.Job): set<string> {
    match j
    case Backup(b) => {b.to}
    case Copy(c) => {c.from, c.to}
  }

  /** Every name some job refers to that is not a repository key. */
  function MissedRepos(cfg: D.Config): (m: set<string>)
    ensures forall n :: n in m <==>
      (n !in cfg.repositories && exists i :: 0 <= i < |cfg.jobs| && n in Referenced(cfg.jobs[i]))
  {
    set i, n | 0 <= i < |cfg.jobs| && n in Referenced(cfg.jobs[i]) && n !in cfg.repositories :: n
  }

  /** toRepository: the entity is named by its key. */
  function ToRepository(name: string, r: D.Repository): E.Repository {
    E.Repository(name, r.path, r.passwordCmd, r.forgetOptions)
  }

  function ToHooks(h: D.Hooks): E.Hooks {
    E.Hooks(h.before, h.failure, h.success)
  }

  /** The repositories keyed as before, each carrying its own key as its name. */
  function ToRepositories(repos: map<string, D.Repository>): (r: map<string, E.Repository>)
    ensures r.Keys == repos.Keys
    ensures forall n :: n in r ==> r[n].name == n && r[n] == ToRepository(n, repos[n])
  {
    map n | n in repos :: ToRepository(n, repos[n])
  }

  /** toBackupJob: the per-job healthcheck URL is not copied, so the entity's is empty. */
  function ToBackupJob(b: D.BackupJob, to: E.Repository): E.Job {
    E.BackupJob(b.name, "", b.cron, b.ignoreMissingXAttrsError, b.from, to, b.options, ToHooks(b.hooks))
  }

  /** toCopyJob: the per-job healthcheck URL is not copied either. */
  function ToCopyJob(c: D.CopyJob, from: E.Repository, to: E.Repository): E.Job {
    E.CopyJob(c.name, "", c.cron, from, to, c.options, ToHooks(c.hooks))
  }

  /** The job mapping, with every referenced repository present. */
  function ToJob(repos: map<string, E.Repository>, j: D.Job): E.Job
    requires Referenced(j) <= repos.Keys
  {
    match j
    case Backup(b) => ToBackupJob(b, repos[b.to])
    case Copy(c) => ToCopyJob(c, repos[c.from], repos[c.to])
  }

  function ToJobs(repos: map<string, E.Repository>, jobs: seq<D.Job>): (r: seq<E.Job>)
    requires forall i :: 0 <= i < |jobs| ==> Referenced(jobs[i]) <= repos.Keys
    ensures |r| == |jobs|
    ensures forall i :: 0 <= i < |jobs| ==> r[i] == ToJob(repos, jobs[i])
  {
    seq(|jobs|, i requires 0 <= i < |jobs| => ToJob(repos, jobs[i]))
  }

  /**
   * ToEntity, with `keyOrder` the order in which Go happens to list the missed names: an
   * error naming the missed repositories when there are any, and the entity configuration
   * otherwise. A configuration that maps keeps the repositories under their keys, each named
   * by its key, keeps the global healthcheck URL and maps the jobs one to one; no mapped job
   * carries a healthcheck URL of its own, whatever the file said, so the health-signal
   * middleware never signals for a job loaded from a file.
   */
  function ToEntity(cfg: D.Config, keyOrder: set<string> -> seq<string>): (r: Result<E.Config, string>)
    ensures r.Failure? <==> MissedRepos(cfg) != {}
    ensures r.Failure? ==> r.error == "missed repositories: " + Join(keyOrder(MissedRepos(cfg)), ", ")
    ensures r.Success? ==>
      (r.value.healthcheckUrl == cfg.healthcheckUrl
       && r.value.repositories.Keys == cfg.repositories.Keys
       && (forall n :: n in r.value.repositories ==>
             r.value.repositories[n] == E.Repository(n, cfg.repositories[n].path,
               cfg.repositories[n].passwordCmd, cfg.repositories[n].forgetOptions))
       && |r.value.jobs| == |cfg.jobs|
       && forall i :: 0 <= i < |r.value.jobs| ==> r.value.jobs[i].healthcheckUrl == "")
  {
    var missed := MissedRepos(cfg);
    if missed != {} then
      Failure("missed repositories: " + Join(keyOrder(missed), ", "))
    else
      var repos := ToRepositories(cfg.repositories);
      Result.Success(E.Config(ToJobs(repos, cfg.jobs), repos, cfg.healthcheckUrl))
  }

  /** Job `i` of a configuration that maps keeps its kind and fields, with its repositories resolved by name. */
  lemma ToEntityJobs(cfg: D.Config, keyOrder: set<string> -> seq<string>, i: int)
    requires ToEntity(cfg, keyOrder).Success?
    requires 0 <= i < |cfg.jobs|
    ensures var c := ToEntity(cfg, keyOrder).value;
      var j, e := cfg.jobs[i], c.jobs[i];
      (e.BackupJob? <==> j.Backup?)
      && (j.Backup? ==>
            e.name == j.b.name && e.cron == j.b.cron && e.sources == j.b.from
            && e.ignoreMissingXAttrsError == j.b.ignoreMissingXAttrsError
            && e.options == j.b.options && e.hooks.before == j.b.hooks.before
            && e.hooks.failure == j.b.hooks.failure && e.hooks.success == j.b.hooks.success
            && j.b.to in c.repositories && e.to == c.repositories[j.b.to])
      && (j.Copy? ==>
            e.name == j.c.name && e.cron == j.c.cron && e.options == j.c.options
            && e.hooks.before == j.c.hooks.before
            && e.hooks.failure == j.c.hooks.failure && e.hooks.success == j.c.hooks.success
            && j.c.from in c.repositories && e.from == c.repositories[j.c.from]
            && j.c.to in c.repositories && e.to == c.repositories[j.c.to])
  {
    assert Referenced(cfg.jobs[i]) <= cfg.repositories.Keys by {
      forall n | n in Referenced(cfg.jobs[i])
        ensures n in cfg.repositories
      {
        assert n !in MissedRepos(cfg);
      }
    }
  }

  /** A job naming a repository that does not exist makes the whole mapping fail, naming it. */
  lemma MissingRepositoryFails(cfg: D.Config, keyOrder: set<string> -> seq<string>, i: int, n: string)
    requires 0 <= i < |cfg.jobs| && n in Referenced(cfg.jobs[i]) && n !in cfg.repositories
    requires IsEnumeration(keyOrder(MissedRepos(cfg)), MissedRepos(cfg))
    ensures ToEntity(cfg, keyOrder).Failure?
    ensures n in keyOrder(MissedRepos(cfg))
  {
    assert n in MissedRepos(cfg);
  }
}
