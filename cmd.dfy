/**
 * cmd/helpers.go and cmd/backup.go: choosing the repositories and jobs a command works on
 * from its --repo, --job and --all flags, and mapping the --log-level text to a level.
 */
module Cmd {
  import opened Wrappers
  import opened Entity
  import opened Seqs
  import BackupHandler

  /** zerolog's levels, by their numeric values. */
  const DebugLevel: int := 0
  const InfoLevel: int := 1
  const WarnLevel: int := 2
  const ErrorLevel: int := 3

  /**
   * toZerologLevel: the four named levels map to their zerolog level; any other text
   * yields the zero Level, which is zerolog's debug level.
   */
  function ToZerologLevel(level: string): (l: int)
    ensures level == "info" ==> l == InfoLevel
    ensures level == "warn" ==> l == WarnLevel
    ensures level == "error" ==> l == ErrorLevel
    ensures level !in {"info", "warn", "error"} ==> l == DebugLevel
  {
    var levels := map["debug" := DebugLevel, "info" := InfoLevel, "warn" := WarnLevel, "error" := ErrorLevel];
    if level in levels then levels[level] else 0
  }

  /**
   * validateGivenRepoNames: the names are checked in order, and the first that is not a
   * repository key is reported.
   */
  method ValidateGivenRepoNames(cfg: Config, repoNames: seq<string>) returns (err: Status)
    ensures err == Ok <==> forall i :: 0 <= i < |repoNames| ==> repoNames[i] in cfg.repositories
    ensures err.Failed? ==>
      (exists k :: 0 <= k < |repoNames|
         && repoNames[k] !in cfg.repositories
         && (forall i :: 0 <= i < k ==> repoNames[i] in cfg.repositories)
         && err.msg == "invalid repository name: " + repoNames[k])
  {
    var i := 0;
    while i < |repoNames|
      invariant 0 <= i <= |repoNames|
      invariant forall j :: 0 <= j < i ==> repoNames[j] in cfg.repositories
    {
      if repoNames[i] !in cfg.repositories {
        return Failed("invalid repository name: " + repoNames[i]);
      }
      i := i + 1;
    }
    err := Ok;
  }

  /** The repository values visited in `order` (Go's map order) that pass the flag filter. */
  function FilterRepos(repos: map<string, Repository>, repoNames: seq<string>, all: bool, order: seq<string>)
    : (r: seq<Repository>)
    ensures forall x :: x in r ==>
      ((all || x.name in repoNames) && exists k :: k in order && k in repos && repos[k] == x)
    ensures forall k :: k in order && k in repos && (all || repos[k].name in repoNames) ==> repos[k] in r
    ensures |r| <= |order|
    decreases |order|
  {
    if order == [] then []
    else
      var rest := FilterRepos(repos, repoNames, all, order[1..]);
      var k := order[0];
      if k in repos && (all || repos[k].name in repoNames) then [repos[k]] + rest else rest
  }

  /** The repository values met along `order`, skipping keys that are not repositories. */
  function Visited(repos: map<string, Repository>, order: seq<string>): seq<Repository>
    decreases |order|
  {
    if order == [] then []
    else (if order[0] in repos then [repos[order[0]]] else []) + Visited(repos, order[1..])
  }

  /** The chosen repositories keep the order in which the map is visited. */
  lemma {:induction false} FilterReposOrder(repos: map<string, Repository>, repoNames: seq<string>, all: bool, order: seq<string>)
    ensures IsSubsequence(FilterRepos(repos, repoNames, all, order), Visited(repos, order))
    decreases |order|
  {
    if order != [] {
      FilterReposOrder(repos, repoNames, all, order[1..]);
      var k := order[0];
      var rest := FilterRepos(repos, repoNames, all, order[1..]);
      if k in repos {
        var v := Visited(repos, order);
        assert v == [repos[k]] + Visited(repos, order[1..]);
        assert v[0] == repos[k] && v[1..] == Visited(repos, order[1..]);
        var r := FilterRepos(repos, repoNames, all, order);
        if all || repos[k].name in repoNames {
          assert r == [repos[k]] + rest && r[1..] == rest;
        } else if rest != [] {
          assert rest[0] in rest && r == rest;
          assert rest[0] != v[0];
        }
      } else {
        assert Visited(repos, order) == Visited(repos, order[1..]);
      }
    }
  }

  /** Every copy of a visited repository that passes the flags is chosen, and nothing else. */
  lemma {:induction false} FilterReposCounts(repos: map<string, Repository>, repoNames: seq<string>, all: bool, order: seq<string>, x: Repository)
    ensures multiset(FilterRepos(repos, repoNames, all, order))[x] ==
      if all || x.name in repoNames then multiset(Visited(repos, order))[x] else 0
    decreases |order|
  {
    if order != [] {
      FilterReposCounts(repos, repoNames, all, order[1..], x);
    }
  }

  /**
   * Loaded configurations name each repository after its key, so a visit of each key at most
   * once chooses no repository twice.
   */
  lemma {:induction false} FilterReposNoDup(repos: map<string, Repository>, repoNames: seq<string>, all: bool, order: seq<string>)
    requires NoDup(order)
    requires forall k :: k in repos ==> repos[k].name == k
    ensures NoDup(FilterRepos(repos, repoNames, all, order))
    decreases |order|
  {
    if order != [] {
      var k := order[0];
      assert NoDup(order[1..]) by {
        forall i, j | 0 <= i < j < |order[1..]| ensures order[1..][i] != order[1..][j] {
          assert order[1..][i] == order[i + 1] && order[1..][j] == order[j + 1];
        }
      }
      FilterReposNoDup(repos, repoNames, all, order[1..]);
      var rest := FilterRepos(repos, repoNames, all, order[1..]);
      if k in repos && (all || repos[k].name in repoNames) {
        var r := [repos[k]] + rest;
        assert k !in order[1..] by {
          forall i | 0 <= i < |order[1..]| ensures order[1..][i] != k {
            assert order[1..][i] == order[i + 1];
          }
        }
        assert repos[k] !in rest;
        forall i, j | 0 <= i < j < |r| ensures r[i] != r[j] {
          if i == 0 {
            assert r[j] == rest[j - 1];
          } else {
            assert r[i] == rest[i - 1] && r[j] == rest[j - 1];
          }
        }
      }
    }
  }

  /**
   * With --all, every repository visited is chosen, in the visiting order; over an
   * enumeration of the keys that is every repository, each exactly once.
   */
  lemma {:induction false} FilterReposAll(repos: map<string, Repository>, repoNames: seq<string>, order: seq<string>)
    requires forall i :: 0 <= i < |order| ==> order[i] in repos
    ensures var r := FilterRepos(repos, repoNames, true, order);
      |r| == |order| && forall i :: 0 <= i < |order| ==> r[i] == repos[order[i]]
    decreases |order|
  {
    if order != [] {
      FilterReposAll(repos, repoNames, order[1..]);
      var r := FilterRepos(repos, repoNames, true, order);
      var rest := FilterRepos(repos, repoNames, true, order[1..]);
      assert r == [repos[order[0]]] + rest;
      forall i | 1 <= i < |order| ensures r[i] == repos[order[i]] {
        calc {
          r[i];
          rest[i - 1];
          repos[order[1..][i - 1]];
          { assert order[1..][i - 1] == order[i]; }
          repos[order[i]];
        }
      }
    }
  }

  /**
   * getRepos, with the flags as parameters: an invalid --repo name is reported before any
   * filtering; an empty choice (neither flag, or no repository at all) is refused.
   */
  method GetRepos(cfg: Config, repoNames: seq<string>, all: bool, order: seq<string>)
    returns (r: Result<seq<Repository>, string>)
    ensures (exists i :: 0 <= i < |repoNames| && repoNames[i] !in cfg.repositories) ==>
      exists k :: 0 <= k < |repoNames|
        && repoNames[k] !in cfg.repositories
        && (forall i :: 0 <= i < k ==> repoNames[i] in cfg.repositories)
        && r == Failure("invalid repository name: " + repoNames[k])
    ensures (forall i :: 0 <= i < |repoNames| ==> repoNames[i] in cfg.repositories) ==>
      var chosen := FilterRepos(cfg.repositories, repoNames, all, order);
      r == if chosen == [] then Failure("either --repo or --all must be specified") else Result.Success(chosen)
  {
    var err := ValidateGivenRepoNames(cfg, repoNames);
    if err.Failed? {
      assert "invalid repository name: " <= err.msg;
      assert "invalid repository name: "[0] != "either --repo or --all must be specified"[0];
      return Failure(err.msg);
    }
    var repos := FilterRepos(cfg.repositories, repoNames, all, order);
    if |repos| == 0 {
      return Failure("either --repo or --all must be specified");
    }
    r := Result.Success(repos);
  }

  /** filterJobs: the jobs chosen by --all or named by --job, in their original order. */
  function FilterJobs(jobs: seq<Job>, all: bool, names: seq<string>): (r: seq<Job>)
    ensures IsSubsequence(r, jobs)
    ensures forall i :: 0 <= i < |r| ==> r[i] in jobs && (all || r[i].name in names)
    ensures forall i :: 0 <= i < |jobs| && (all || jobs[i].name in names) ==> jobs[i] in r
    decreases |jobs|
  {
    if jobs == [] then []
    else
      var rest := FilterJobs(jobs[1..], all, names);
      assert forall i :: 1 <= i < |jobs| ==> jobs[i] == jobs[1..][i - 1];
      if all || jobs[0].name in names then [jobs[0]] + rest else rest
  }

  /** The filter keeps every copy of a chosen job and no copy of any other. */
  lemma {:induction false} FilterJobsCounts(jobs: seq<Job>, all: bool, names: seq<string>, x: Job)
    ensures multiset(FilterJobs(jobs, all, names))[x] ==
      if all || x.name in names then multiset(jobs)[x] else 0
    decreases |jobs|
  {
    if jobs != [] {
      FilterJobsCounts(jobs[1..], all, names, x);
      assert jobs == [jobs[0]] + jobs[1..];
      assert multiset(jobs) == multiset{jobs[0]} + multiset(jobs[1..]);
    }
  }

  /** With --all, every job is kept. */
  lemma {:induction false} FilterJobsAll(jobs: seq<Job>, names: seq<string>)
    ensures FilterJobs(jobs, true, names) == jobs
    decreases |jobs|
  {
    if jobs != [] {
      FilterJobsAll(jobs[1..], names);
    }
  }

  /**
   * The part of the backup command's RunE that decides what to run: the chosen jobs and the
   * --dry-run flag, or a refusal when no job is chosen.
   */
  function BackupCommand(cfg: Config, all: bool, names: seq<string>, dryRun: bool)
    : (r: Result<BackupHandler.Command, string>)
    ensures r.Failure? <==> forall i :: 0 <= i < |cfg.jobs| ==> !all && cfg.jobs[i].name !in names
    ensures r.Failure? ==> r.error == "either --job or --all must be specified"
    ensures r.Success? ==> r.value.dryRun == dryRun && r.value.jobs == FilterJobs(cfg.jobs, all, names)
  {
    var jobs := FilterJobs(cfg.jobs, all, names);
    if |jobs| == 0 then Failure("either --job or --all must be specified")
    else Result.Success(BackupHandler.Command(jobs, dryRun))
  }
}
