/**
 * The values the source threads through `context.Context` (internal/shell/ctx.go,
 * internal/restic/dry_run.go and the JSON-mode and source keys of the logger), as one
 * immutable record. Each `With…` returns a new record and leaves its argument unchanged.
 */
module RunContext {

  datatype Ctx = Ctx(
    dryRun: bool,
    silent: bool,
    printCommands: bool,
    jsonMode: bool,
    env: map<string, string>,
    source: string)

  const Background := Ctx(false, false, false, false, map[], "")

  function WithDryRun(c: Ctx): Ctx { c.(dryRun := true) }

  function WithSilence(c: Ctx): Ctx { c.(silent := true) }

  /** shell.WithEnv replaces the whole environment map seen by later shell runs. */
  function WithEnv(c: Ctx, env: map<string, string>): Ctx { c.(env := env) }

  function WithSource(c: Ctx, source: string): Ctx { c.(source := source) }
}
