/**
 * The domain entities of internal/entity/config.go: repositories, hooks and the closed
 * sum of the two job kinds, plus the option maps they carry.
 */
module Entity {

  /** A value decoded from YAML into an option map (`any` in Go). */
  datatype Value =
    | VBool(b: bool)
    | VString(s: string)
    | VInt(i: int)            // Go int
    | VInt64(i: int)          // Go int64
    | VFloat(repr: string)    // float64, kept as its strconv.FormatFloat text
    | VArray(items: seq<Value>)
    | VOther                  // maps, nil and every other dynamic type

  /** `Options map[string]any`; `Nil` is the nil map a missing YAML key decodes to. */
  datatype Options = Nil | Options(entries: map<string, Value>) {
    function Entries(): map<string, Value> {
      if Nil? then map[] else entries
    }
  }

  datatype Repository = Repository(
    name: string,
    path: string,
    passwordCmd: string,
    forgetOptions: Options)

  datatype Hooks = Hooks(before: seq<string>, failure: seq<string>, success: seq<string>)

  /** The `Job` interface: exactly the two variants the configuration produces. */
  datatype Job =
    | BackupJob(
        name: string,
        healthcheckUrl: string,
        cron: string,
        ignoreMissingXAttrsError: bool,
        sources: seq<string>,   // BackupJob.From
        to: Repository,
        options: Options,
        hooks: Hooks)
    | CopyJob(
        name: string,
        healthcheckUrl: string,
        cron: string,
        from: Repository,
        to: Repository,
        options: Options,
        hooks: Hooks)

  datatype Config = Config(
    jobs: seq<Job>,
    repositories: map<string, Repository>,
    healthcheckUrl: string)
}
