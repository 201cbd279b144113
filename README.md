# crestic core, modelled in Dafny

crestic runs restic backups described in a YAML configuration. A configuration names repositories and
jobs. A backup job snapshots paths into a repository and then runs `restic check` and `restic forget`
on it. A copy job copies snapshots from one repository to another. Each job is wrapped by
middlewares:
- a hook middleware runs shell hooks before the job and then after failure or after success;
- a healthcheck middleware pings a healthchecks.io-style endpoint with start, success and fail signals.

A batch runs every job in order. The failures are collected into one aggregated error.

The model covers:
- the middleware chain;
- the backup, check and forget handlers;
- the restic command line (option flags, JSON mode, dry run, error texts);
- shell command rendering;
- the healthcheck HTTP client with its retry and backoff;
- cron filtering of due jobs against a state file;
- YAML job decoding;
- the configuration-to-entity mapper;
- the repository and job selection of the `backup` command.

How the world is modelled:
- Every external effect is appended to a `World.Trace`: a shell invocation with its result, or a
  health signal.
- The results of shell runs, the iteration order of Go maps and the run-id generator come from a
  `World.Oracle`.
- URL parsing, JSON marshalling and HTTP transport form `Healthchecks.HttpOracle`.
- YAML decoding of one job is `Dto.Decoder`, and cron parsing is `Cron.CronParser`.
- A Go `error` is `Wrappers.Status` (`Ok` or `Failed(msg)`).
- Go map iteration order is an explicit `order` parameter. Lemmas show that the results do not
  depend on it, up to permutation.

Objects that the source mutates are classes: the job error aggregator, the job results and the cron
state file. Loops that the source runs over a slice are methods with loop invariants, each proved
equal to a recursive specification (`World.RunAll`, `HandlerChain.Nest`, `Dto.DecodeAll`,
`HealthRetry.RetryFrom`).

## Model

| member | source | states |
|---|---|---|
| HandlerChain.Chain | internal/cases/handler/chain.go:13-19 | wrapping in reverse order makes the first middleware the outermost: the result is the nested application `Nest(base, ms)` |
| HandlerChain.NestEmpty | internal/cases/handler/chain.go:13-19 | a chain with no middleware is the base handler itself |
| HandlerChain.NestAppend | internal/cases/handler/chain.go:13-19 | appending a middleware places it innermost, directly around the base handler |
| HandlerChain.Nest | internal/cases/handler/chain.go:13-19 | the first middleware outermost, the base innermost; stated by HandlerChain.Chain, NestEmpty and NestAppend |
| HandlerChain.PanicRecoveryTransparent | internal/cases/handler/panic.go:12-24 | without a panic, the recovery middleware passes the handler's result through unchanged |
| HandlerChain.WithPanicRecovery | internal/cases/handler/panic.go:12-24 | the recovery middleware, the identity when nothing panics; stated by PanicRecoveryTransparent |
| HandlerChain.LabelledAll | internal/cases/handler/chain_test.go:12-56 | one labelled test middleware per name, in the same order |
| HandlerChain.Befores | internal/cases/handler/chain_test.go:12-56 | the "before" lines appear in chain order |
| HandlerChain.Afters | internal/cases/handler/chain_test.go:12-56 | the "after" lines appear in reverse chain order |
| HandlerChain.LabelledChainRun | internal/cases/handler/chain_test.go:12-56 | a chain of labelled middlewares logs every "before" in order, then the handler, then every "after" in reverse |
| HandlerChain.TwoMiddlewareStack | internal/cases/handler/chain_test.go:44-50 | the two-middleware test logs mw1 before, mw2 before, the handler, mw2 after, mw1 after |
| BackupMw.ChainJobs | internal/cases/backup/mw.go:14-26 | the job chain equals the nested application of its middlewares, the first outermost |
| BackupMw.JobChainStack | internal/cases/backup/mw_test.go:42-48 | the job chain test records the same before/after stack |
| BackupMw.HookEnv | internal/cases/backup/hooks.go:38-48 | hooks see CRESTIC_JOB_NAME, and CRESTIC_ERROR exactly when there is an error; no other variable is set and the rest of the context is unchanged |
| BackupMw.HookMwBeforeFailure | internal/cases/backup/hooks.go:15-36 | when before hooks fail, the job never runs, failure hooks run with the error, and the result is "before hooks failed: " plus that error |
| BackupMw.HookMwJobFailure | internal/cases/backup/hooks.go:15-36 | a failing job runs the failure hooks with its error; their result is dropped and the job's error is returned |
| BackupMw.HookMwJobSuccess | internal/cases/backup/hooks.go:15-36 | a successful job runs the success hooks without CRESTIC_ERROR, and their outcome is the result |
| BackupMw.HookMw | internal/cases/backup/hooks.go:15-36 | the hook middleware: before hooks, the job, then failure or success hooks; stated by HookMwBeforeFailure, HookMwJobFailure and HookMwJobSuccess |
| BackupMw.HealthMwNoUrl | internal/cases/backup/healthcheck.go:15-39 | a job without a health URL runs unwrapped |
| BackupMw.HealthMwSignals | internal/cases/backup/healthcheck.go:15-39 | with a URL: one start signal before the job and exactly one closing signal after it (fail with the error text, or success), both under the same run id; the job's error passes through |
| BackupMw.HealthMw | internal/cases/backup/healthcheck.go:15-39 | the health middleware: start and closing signals around the job under one run id; stated by HealthMwNoUrl and HealthMwSignals |
| BackupHandler.HookStepRuns | internal/cases/backup/handler.go:168-182 | one hook is one `sh -c` invocation that fails iff the shell reported an error; the failure text is `hook failed "H" [exit code N]: ` with the hook and the decimal exit code, followed by the shell's error |
| BackupHandler.ExecuteHooks | internal/cases/backup/handler.go:168-182 | hooks run in order and stop at the first failure |
| BackupHandler.InitRepoCases | internal/cases/backup/handler.go:155-166 | an initialized repository is not re-initialized; a failed probe returns its error; otherwise `restic init` runs |
| BackupHandler.InitRepo | internal/cases/backup/handler.go:155-166 | probe, then `restic init` only when absent; stated by InitRepoCases |
| BackupHandler.BackupIsStageSequence | internal/cases/backup/handler.go:95-121 | a backup job runs init of the target, backup, check, then forget, and stops at the first error |
| BackupHandler.CheckForgetStages | internal/cases/backup/handler.go:95-121 | check runs before forget, and forget is skipped when check fails |
| BackupHandler.CopyCheckForgetStages | internal/cases/backup/handler.go:123-153 | the last three copy stages: copy, check, then forget, stopping at the first error |
| BackupHandler.CopyIsStageSequence | internal/cases/backup/handler.go:123-153 | a copy job initializes the source, then the target, then copies, and stops at the first error |
| BackupHandler.BackupJobRun | internal/cases/backup/handler.go:95-121 | the backup stages; stated by BackupIsStageSequence and CheckForgetStages |
| BackupHandler.CopyJobRun | internal/cases/backup/handler.go:123-153 | the copy stages; stated by CopyIsStageSequence and CopyCheckForgetStages |
| BackupHandler.DoJob | internal/cases/backup/handler.go:65-93 | dispatches a backup job to BackupJobRun and a copy job to CopyJobRun |
| BackupHandler.PipelineNesting | internal/cases/backup/handler.go:42-46 | the health middleware wraps the hook middleware, which wraps the job |
| BackupHandler.BeforeHookFailureSignalled | internal/cases/backup/handler.go:42-46 | a failing before hook makes the job fail with "before hooks failed", and the last signal is a fail ping carrying that text |
| BackupHandler.Batch | internal/cases/backup/handler.go:50-56 | every job gets exactly one outcome |
| BackupHandler.BatchRunsJob | internal/cases/backup/handler.go:50-56 | job i runs on the trace the first i jobs left, whatever their outcomes, and its outcome is the i-th; later jobs run even after earlier ones fail |
| BackupHandler.FailuresRecordFailedJobs | internal/cases/backup/handler.go:50-56 | a job name is in the error map iff some job with that name failed, and it maps to the last such error |
| BackupHandler.FailuresEmpty | internal/cases/backup/handler.go:50-56 | the error map is empty iff every job succeeded |
| BackupHandler.JobCtx | internal/cases/backup/handler.go:36-41 | jobs run in dry-run mode when either the context or the command asks for it; nothing else in the context changes |
| BackupHandler.Handle | internal/cases/backup/handler.go:36-63 | runs the whole batch; returns null iff every job succeeded, else a fresh aggregator holding exactly the failures |
| JobErrors.Segment | internal/cases/backup/job_errors.go:18-24 | each rendered segment starts with the job name, ends with that job's error, and is never empty |
| JobErrors.SegmentsOfEnumeration | internal/cases/backup/job_errors.go:18-24 | one segment per job, in iteration order |
| JobErrors.RenderEmpty | internal/cases/backup/job_errors.go:18-24 | the rendered text is empty iff there are no errors |
| JobErrors.Render | internal/cases/backup/job_errors.go:18-24 | the segments joined by ";\n"; stated by SegmentsOfEnumeration, RenderEmpty and SegmentsOrderIndependent |
| JobErrors.SegmentsOrderIndependent | internal/cases/backup/job_errors.go:18-24 | any two map iteration orders give the same segments up to permutation |
| JobErrors.JobListError.constructor | internal/cases/backup/job_errors.go:14-16 | starts empty |
| JobErrors.JobListError.Add | internal/cases/backup/job_errors.go:30-32 | records or overwrites one job's error and keeps the others |
| JobErrors.JobListError.HasErrors | internal/cases/backup/job_errors.go:26-28 | true iff some job is recorded |
| JobErrors.JobListError.Error | internal/cases/backup/job_errors.go:18-24 | the text is empty iff nothing is recorded |
| Results.FailureLine | internal/entity/job_results.go:34-44 | each failure line starts with the job name and ends with the job's error |
| Results.FailureLines | internal/entity/job_results.go:34-44 | one line per failed job, in order |
| Results.RenderFailuresEmpty | internal/entity/job_results.go:34-44 | the message is empty iff there are no failures |
| Results.RenderFailuresAppend | internal/entity/job_results.go:34-44 | one more failure appends exactly one line to the message |
| Results.JobResults.constructor | internal/entity/job_results.go:27-32 | both lists start empty |
| Results.JobResults.Add | internal/entity/job_results.go:50-72 | an error appends to the failed list, otherwise to the success list; the other list is unchanged |
| Results.JobResults.HasErrors | internal/entity/job_results.go:46-48 | true iff some job failed |
| Results.JobResults.ErrorMsg | internal/entity/job_results.go:34-44 | empty iff no job failed; otherwise the failure lines in order |
| OptionArgs.ValueToString | internal/entity/options.go:47-60 | strings are kept, integers render as decimal text that parses back, and other kinds render empty |
| OptionArgs.FormatFlag | internal/entity/options.go:62-72 | the result always starts with a hyphen and ends with the key, and equals the key iff the key already had one |
| OptionArgs.FormatFlagIdempotent | internal/entity/options.go:62-68 | formatting twice equals formatting once |
| OptionArgs.FormatFlagCollision | internal/entity/options.go:62-68 | two keys give the same flag only when they are equal or one is the other with "--" added |
| OptionArgs.BoolArgs | internal/entity/options.go:80-86 | true gives the bare flag and false gives nothing |
| OptionArgs.ScalarArgs | internal/entity/options.go:88-95 | the flag and its value, or nothing when the value renders empty |
| OptionArgs.NonEmptyTexts | internal/entity/options.go:74-78 | array items that render empty are skipped |
| OptionArgs.ArrayArgs | internal/entity/options.go:74-78 | the flag and text of each item that renders non-empty; stated by ArrayArgsShape |
| OptionArgs.ArrayArgsShape | internal/entity/options.go:74-78 | flattening the scalar arguments of the items repeats the flag once per item with a non-empty text, each followed by that text; items with an empty text add nothing |
| OptionArgs.KeyArgs | internal/entity/options.go:16-32 | dispatches on the value kind: bool, array or scalar |
| OptionArgs.ToArgsEmpty | internal/entity/options.go:16-32 | nil or empty options give no arguments |
| OptionArgs.ToArgsOrderIndependent | internal/entity/options.go:16-32 | any two iteration orders give the same arguments up to permutation |
| OptionArgs.ToArgsSingle | internal/entity/options.go:16-32 | a single option renders exactly as its key's arguments |
| OptionArgs.ToArgs | internal/entity/options.go:16-32 | each key's arguments in iteration order; stated by ToArgsEmpty, ToArgsSingle and ToArgsOrderIndependent |
| OptionArgs.ToArgsBoolExamples | internal/entity/options.go:80-86 | a true flag gets "--" added; a false flag disappears |
| OptionArgs.ToArgsStringExample | internal/entity/options.go:88-95 | a string option gives the flag and the string |
| OptionArgs.ToArgsIntExample | internal/entity/options.go:47-60 | an integer option gives the flag and its decimal text |
| OptionArgs.ToArgsArrayExample | internal/entity/options.go:74-78 | an array option repeats the flag for each item |
| OptionArgs.Merge | internal/entity/options.go:35-44 | the other map's keys win, also over the same flag written with or without "--"; the remaining keys come from the first map |
| Restic.JsonArgs | internal/restic/runner.go:18-30 | in JSON mode "--json" is inserted right after the subcommand; otherwise the arguments are unchanged |
| Restic.RunnerArgs | internal/restic/runner.go:18-30 | the runner builds exactly the JSON-mode argument list |
| Restic.RunnerInvocation | internal/restic/runner.go:18-30 | runs the program "restic" with log source "restic" |
| Restic.Run | internal/restic/runner.go:18-30 | appends exactly one invocation to the trace and returns its result |
| Restic.ToErr | internal/restic/repository.go:242-261 | fails iff the run failed; the message is "repository R: restic C failed [exit code N]: " with the repository, the command and the decimal exit code, followed by the run's own error |
| Restic.DryRunFlag | internal/restic/repository.go:76-101 | "--dry-run" is added iff dry-run mode is on |
| Restic.BackupArgs | internal/restic/repository.go:76-101 | backup, repository flags, optional dry run, the job's options, then the source paths |
| Restic.ForgetArgs | internal/restic/repository.go:122-141 | forget, repository flags, optional dry run, then the repository's options |
| Restic.CopyArgs | internal/restic/repository.go:144-178 | copy with target and source repository flags, then the options |
| Restic.RestoreArgs | internal/restic/repository.go:182-200 | restore with target, repository flags, then the snapshot id |
| Restic.ExecArgs | internal/restic/repository.go:203-224 | the user's command, repository flags, then the user's arguments |
| Restic.IsRepoInitialized | internal/restic/repository.go:51-72 | a silent `restic stats` decides it; a failure with exit code 10 means not initialized, with no error |
| Restic.Backup | internal/restic/repository.go:76-101 | one backup invocation, and its error is mapped through ToErr |
| Restic.Copy | internal/restic/repository.go:144-178 | dry run does nothing; otherwise one invocation with the copy failure text |
| Restic.JsonKeepsSubcommand | internal/restic/runner.go:18-30 | JSON mode keeps the subcommand first and adds at most the "--json" argument |
| Restic.BackupDryRunInsertion | internal/restic/repository.go:76-101 | dry run inserts exactly one "--dry-run" after the repository flags |
| Restic.RepositoryCommandsRunOnce | internal/restic/repository.go:35-240 | init, check, forget, restore, exec and unlock each append exactly one restic run of their subcommand, whose arguments carry the repository flags, and report its outcome through toErr |
| Restic.FlagsReachRunner | internal/restic/runner.go:18-30 | the runner's rewrite keeps `-r <path> --password-command <cmd>` among the arguments |
| Restic.RunReported | internal/restic/repository.go:242-261 | one run through the runner, reported by toErr, satisfies the single-run description |
| Restic.InitRunsOnce | internal/restic/repository.go:35-48 | `restic init` with the repository flags, once, reported by toErr |
| Restic.CheckRunsOnce | internal/restic/repository.go:104-119 | `restic check` with the repository flags, once, reported by toErr |
| Restic.ForgetRunsOnce | internal/restic/repository.go:122-141 | `restic forget` with the repository flags, once, reported by toErr |
| Restic.RestoreRunsOnce | internal/restic/repository.go:182-200 | `restic restore` with the repository flags, once, reported by toErr |
| Restic.ExecRunsOnce | internal/restic/repository.go:203-224 | the user's command with the repository flags, once, reported under its name |
| Restic.UnlockRunsOnce | internal/restic/repository.go:227-240 | `restic unlock` with the repository flags, once, reported by toErr |
| Restic.CopyRunsUnlessDryRun | internal/restic/repository.go:144-178 | a copy adds one invocation to the trace, or none in dry-run mode |
| Restic.Init | internal/restic/repository.go:35-48 | one `restic init` run reported through toErr; stated by RepositoryCommandsRunOnce |
| Restic.Check | internal/restic/repository.go:104-119 | one `restic check` run reported through toErr; stated by RepositoryCommandsRunOnce |
| Restic.Forget | internal/restic/repository.go:122-141 | one `restic forget` run reported through toErr; stated by RepositoryCommandsRunOnce |
| Restic.Restore | internal/restic/repository.go:182-200 | one `restic restore` run reported through toErr; stated by RepositoryCommandsRunOnce |
| Restic.Exec | internal/restic/repository.go:203-224 | one run of the user's command reported under its name; stated by RepositoryCommandsRunOnce |
| Restic.Unlock | internal/restic/repository.go:227-240 | one `restic unlock` run reported through toErr; stated by RepositoryCommandsRunOnce |
| Shell.Escape | internal/shell/executor.go:83-102 | escaping adds exactly one character per double quote in the argument |
| Shell.EscapeRoundTrip | internal/shell/executor.go:83-102 | unescaping recovers the argument, and every quote in the escaped text is preceded by a backslash |
| Shell.Render | internal/shell/executor.go:83-102 | an argument without special characters is printed as is; otherwise it is quoted and escaped |
| Shell.ArgsTextAppend | internal/shell/executor.go:83-102 | each argument adds one space and its rendering |
| Shell.LineShape | internal/shell/executor.go:83-102 | the line is the command followed by the rendered arguments |
| Shell.FormatCommand | internal/shell/executor.go:83-102 | the method builds that line, and it starts with the command |
| HealthRetry.BackoffSeconds | internal/healthchecks/retry.go:66-73 | the delay is at least one second, and exactly one for the first retry |
| HealthRetry.BackoffMonotone | internal/healthchecks/retry.go:66-73 | later retries never wait less |
| HealthRetry.BackoffSchedule | internal/healthchecks/retry.go:66-73 | the waits are one second, then two |
| HealthRetry.WithRetry | internal/healthchecks/retry.go:24-61 | the loop yields exactly the recursive retry specification |
| HealthRetry.RetryOutcomes | internal/healthchecks/retry.go:24-61 | all four outcomes: delivered, a non-retryable error, retries with waits of 1 s and 2 s, and exhaustion after three attempts with the last error |
| HealthRetry.DeliveredByACall | internal/healthchecks/retry.go:24-61 | success means some attempt was made and delivered |
| HealthRetry.AtMostThreeCalls | internal/healthchecks/retry.go:24-61 | never more than three attempts |
| HealthRetry.RetryFrom | internal/healthchecks/retry.go:24-61 | the recursive retry specification; stated by RetryOutcomes, DeliveredByACall and AtMostThreeCalls |
| Healthchecks.NewClient | internal/healthchecks/client.go:33-44 | fails with "empty base URL" iff the URL is blank; otherwise keeps the trimmed URL |
| Healthchecks.BuildUrl | internal/healthchecks/client.go:99-116 | appends the endpoint to the trimmed path and sets the "rid" query only when a run id is given; other query keys and parse errors pass through |
| Healthchecks.Classify | internal/healthchecks/client.go:118-157 | delivered iff status 200; request errors and 4xx statuses are not retried; transport errors and other statuses are retried, with the status and trimmed body in the message |
| Healthchecks.PostOutcome | internal/healthchecks/client.go:71-96 | a bad URL or marshal failure sends nothing; a bad URL gives "invalid healthcheck URL: "; otherwise posts to the built URL |
| Healthchecks.Post | internal/healthchecks/client.go:71-96 | the method yields exactly that outcome |
| Healthchecks.PostBounded | internal/healthchecks/client.go:71-96 | at most three HTTP calls; on success, one of them was answered 200 |
| Healthchecks.Start | internal/healthchecks/client.go:50-52 | posts the job list to the "start" endpoint |
| Healthchecks.Success | internal/healthchecks/client.go:58-60 | posts the success and failure lists to the bare check URL |
| Healthchecks.Fail | internal/healthchecks/client.go:67-69 | posts the results to the "fail" endpoint |
| Cron.FilterDue | internal/cron/cron.go:31-67 | keeps only jobs whose parseable, non-empty schedule fires after the last run and strictly before now, and every such job, in their original order |
| Cron.FilterDueCounts | internal/cron/cron.go:31-67 | each due job is kept as many times as it is listed, and no other job is kept |
| Cron.NothingDueFromNow | internal/cron/cron.go:31-67 | right after a run, with the last run recorded as now, no job is due |
| Cron.StateFile.constructor | internal/cron/cron.go:23-27 | the state holds the given stored time (or load error) and save outcome |
| Cron.StateFile.Load | internal/cron/cron.go:23-27 | returns the stored last run or the load error, without changing state |
| Cron.StateFile.Save | internal/cron/state.go:40-69 | on success the stored time becomes the given time; a failed save is modelled as leaving the state as it was (see Left out) |
| Cron.FilterJobsByCron | internal/cron/cron.go:18-76 | falls back to now when loading fails; returns the due jobs and records now, or returns the save error, the state modelled as unchanged (see Left out) |
| Dto.Quote | internal/dto/jobs.go:37-65 | the quoted job type starts and ends with a double quote and is at least two characters longer than the type |
| Dto.QuoteBody | internal/dto/jobs.go:37-65 | escapes quotes and backslashes: never shorter than the text, and every quote in it is preceded by a backslash |
| Dto.QuoteRoundTrip | internal/dto/jobs.go:37-65 | unquoting recovers the job type |
| Dto.DecodeJob | internal/dto/jobs.go:37-65 | dispatches on the type field to backup or copy; each error is prefixed by its stage, and an unknown type is reported quoted |
| Dto.DecodeAllResult | internal/dto/jobs.go:15-31 | on success every node is decoded in order; on failure the first failing node's error is reported with "unmarshal job: " |
| Dto.DecodeAll | internal/dto/jobs.go:15-31 | decodes the nodes in order, stopping at the first error; stated by DecodeAllResult |
| Dto.UnmarshalJobs | internal/dto/jobs.go:15-31 | a non-sequence gives "jobs must be a sequence"; otherwise the loop yields the recursive decoding |
| Mapper.MissedRepos | internal/dto/mapper.go:12-60 | exactly the repository names that jobs reference but the configuration lacks |
| Mapper.ToRepositories | internal/dto/mapper.go:62-69 | one repository per key, named by its key |
| Mapper.ToJobs | internal/dto/mapper.go:71-92 | one entity job per job, in order, of the same kind |
| Mapper.ToEntity | internal/dto/mapper.go:12-60 | fails iff some repository is missing, listing them; otherwise keeps the repositories and jobs, and every job's health URL is empty |
| Mapper.ToEntityJobs | internal/dto/mapper.go:71-100 | each job keeps its fields and hooks, and its repositories are resolved by name |
| Mapper.MissingRepositoryFails | internal/dto/mapper.go:12-60 | a job referencing an undefined repository makes the mapping fail, and the message names it |
| Cmd.ToZerologLevel | cmd/helpers.go:51-60 | "info", "warn" and "error" map to their levels; "debug" and every unknown name give the zero value, the debug level |
| Cmd.ValidateGivenRepoNames | cmd/helpers.go:37-46 | succeeds iff every name is configured; otherwise reports the first unknown name |
| Cmd.FilterRepos | cmd/helpers.go:24-26 | a repository is chosen iff it is visited and its name was given (or --all is set); never more than the keys visited |
| Cmd.FilterReposOrder | cmd/helpers.go:24-26 | the chosen repositories keep the order in which the map is visited |
| Cmd.FilterReposCounts | cmd/helpers.go:24-26 | each visited repository that passes is chosen as often as it is visited, and no other |
| Cmd.FilterReposNoDup | cmd/helpers.go:24-26 | when each key is visited once and repositories are named by their keys (internal/dto/mapper.go:64), no repository is chosen twice |
| Cmd.FilterReposAll | cmd/helpers.go:16-33 | selecting all gives every repository, in iteration order |
| Cmd.GetRepos | cmd/helpers.go:16-33 | an unknown --repo name fails with "invalid repository name: " and the first unknown name, before any filtering; an empty choice fails with "either --repo or --all must be specified"; otherwise the filtered repositories |
| Cmd.FilterJobs | cmd/backup.go:88-94 | keeps only named jobs (all with --all), and every one of them, in configuration order |
| Cmd.FilterJobsCounts | cmd/backup.go:88-94 | each chosen job is kept as many times as it is listed, and no other job is kept |
| Cmd.FilterJobsAll | cmd/backup.go:88-94 | selecting all keeps every job |
| Cmd.BackupCommand | cmd/backup.go:52-76 | neither --job nor --all is an error; otherwise the selected jobs with the dry-run flag |
| CheckHandler.CheckRepoRunsCheckLast | internal/cases/check/handler.go:37-51 | an initialization failure is returned; otherwise `restic check` runs once |
| CheckHandler.CheckRepo | internal/cases/check/handler.go:37-51 | initialize, then `restic check`; stated by CheckRepoRunsCheckLast |
| CheckHandler.Handle | internal/cases/check/handler.go:25-35 | checks the repositories in order and stops at the first error |
| ForgetHandler.WithPrune | internal/cases/forget/handler.go:44-50 | sets the "prune" option to the flag; a nil option map stays nil |
| ForgetHandler.ForgetRepo | internal/cases/forget/handler.go:44-50 | a nil option map fails; otherwise `restic forget` with prune set; stated by PruneReachesRestic |
| ForgetHandler.ForgetCtx | internal/cases/forget/handler.go:27-42 | forget runs in dry-run mode when the context or the command asks for it; nothing else in the context changes |
| ForgetHandler.ForgetLoop | internal/cases/forget/handler.go:27-42 | for any per-repository step: runs the repositories in order up to the first error, and exactly the repositories handed to the step get the prune option |
| ForgetHandler.Handle | internal/cases/forget/handler.go:27-42 | forgets the repositories in order and stops at the first error; exactly the processed repositories get the prune option |
| ForgetHandler.PruneReachesRestic | internal/cases/forget/handler.go:44-50 | with prune set, the restic arguments contain "--prune" whatever the iteration order |

## Left out

- Locking (internal/cases/handler/lock.go): file locks and concurrency are not modelled.
- Panic recovery: a Go panic cannot occur in the model, so `WithPanicRecovery` is the identity, and the panic error text is not modelled.
- ForgetHandler.Handle: a nil option map makes Go panic when "prune" is assigned; the model turns this into the error "assignment to entry in nil map", stops the loop and leaves that repository unchanged.
- ForgetHandler.Handle: repositories are values in an array, so aliasing between repository pointers is not captured.
- Cron state file I/O (internal/cron/state.go): the file is the `StateFile` class, whose load result and save error are given.
- Cron.StateFile.Save: a failed save is modelled as atomic and leaves the stored state as it was. os.WriteFile (internal/cron/state.go:63) may truncate the file before failing, after which the next load fails and falls back to now.
- Cron.FilterJobsByCron: on a save error the state is stated unchanged, with the same atomic-save assumption as `Cron.StateFile.Save`.
- Logging: the logger, context log fields and log levels other than the level mapping are not modelled.
- Floating-point options: a float renders as a given text (`VFloat.repr`); Go's float formatting is not modelled.
- Time: durations and timestamps are unbounded integers, so overflow is not modelled; the elapsed time of a job is opaque text.
- External libraries are oracles: URL parsing and path joining, JSON marshalling, HTTP transport and its timeout, UUID generation, the cron expression parser and YAML decoding.
- Map iteration order comes from the oracle and is not constrained to enumerate the map's keys; the order-independence lemmas state this requirement themselves.
- HealthRetry.WithRetry: sleeping is recorded as a `Pause` event; a context cancelled during the sleep is not modelled.
- Dto.Quote: only `"` and `\` are escaped; the other escapes of Go's `%q` are not modelled.
- Unreachable default branches of closed sums (the job kind switch in handler.go and the nil-entry case in mapper.go) are left out.
- BackupMw.HealthMwSignals: signals are recorded in the trace and not sent through the healthchecks client, because the source's two sides disagree. healthcheck.go:26 calls `Start` with a URL and four arguments, while client.go:50 defines it with three. cmd/backup.go:65 builds a client without a base URL, while client.go:33 requires one.
- Cron.NothingDueFromNow: assumes every parseable schedule's next activation after now is not before now. The cron library can return the zero time for a schedule that never fires (such as February 30th), and such a job would pass the "before now" test on every run. That library is not part of this model.
- Cron.FilterDue: follows the code. A schedule whose next activation equals now is not due, because the test is "strictly before".
- Mapper.ToEntity: the per-job healthcheck URL of the configuration is not copied (as in the code), so every mapped job has an empty URL.
- Restic.RepositoryCommandsRunOnce: init, check, forget, restore, exec and unlock have no contracts of their own; this lemma and the per-command lemmas beside it (InitRunsOnce to UnlockRunsOnce) state what each one runs.
- The commands other than backup (cfg, completion, cron, exec, restore, unlock, root flags) and the exec, restore and unlock handlers are not part of this model.
