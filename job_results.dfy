/**
 * internal/entity/job_results.go: the outcome of a batch of jobs, as two append-only
 * lists, and the error message that lists the failures.
 */
module Results {
  import opened Wrappers
  import opened Strings

  /** `elapsed` is the job's time.Duration already rendered as text. */
  datatype SuccessJob = SuccessJob(name: string, elapsed: string)

  datatype FailedJob = FailedJob(name: string, elapsed: string, error: string)

  /** One failure as ErrorMsg renders it: "<name> elapsed: <elapsed> failed: <error>". */
  function FailureLine(f: FailedJob): (r: string)
    ensures r != ""
    ensures HasPrefix(r, f.name)
    ensures |r| >= |f.error| && r[|r| - |f.error|..] == f.error
  {
    f.name + " elapsed: " + f.elapsed + " failed: " + f.error
  }

  function FailureLines(fs: seq<FailedJob>): (r: seq<string>)
    ensures |r| == |fs|
    ensures forall i :: 0 <= i < |fs| ==> r[i] == FailureLine(fs[i])
  {
    seq(|fs|, i requires 0 <= i < |fs| => FailureLine(fs[i]))
  }

  /** The text of ErrorMsg for the failures `fs`, in insertion order. */
  function RenderFailures(fs: seq<FailedJob>): string {
    if |fs| == 0 then "" else Join(FailureLines(fs), ";\n")
  }

  /** The message is empty exactly when there is no failure. */
  lemma RenderFailuresEmpty(fs: seq<FailedJob>)
    ensures RenderFailures(fs) == "" <==> fs == []
  {
    JoinEmpty(FailureLines(fs), ";\n");
  }

  /** One more failure appends a separator and its line, and leaves the earlier text as it was. */
  lemma RenderFailuresAppend(fs: seq<FailedJob>, f: FailedJob)
    ensures RenderFailures(fs + [f]) ==
      if fs == [] then FailureLine(f) else RenderFailures(fs) + ";\n" + FailureLine(f)
  {
    assert FailureLines(fs + [f]) == FailureLines(fs) + [FailureLine(f)];
    JoinAppend(FailureLines(fs), FailureLine(f), ";\n");
  }

  class JobResults {
    var successJobs: seq<SuccessJob>
    var failedJobs: seq<FailedJob>

    /** NewJobResults: both lists start empty. */
    constructor ()
      ensures successJobs == [] && failedJobs == []
    {
      successJobs := [];
      failedJobs := [];
    }

    /**
     * Add: a failed job is appended to the failures with its error text, a successful one to
     * the successes; the other list is left as it was.
     */
    method Add(jobName: string, elapsed: string, err: Status)
      modifies this
      ensures err.Failed? ==> failedJobs == old(failedJobs) + [FailedJob(jobName, elapsed, err.msg)]
      ensures err.Failed? ==> successJobs == old(successJobs)
      ensures err.Ok? ==> successJobs == old(successJobs) + [SuccessJob(jobName, elapsed)]
      ensures err.Ok? ==> failedJobs == old(failedJobs)
    {
      if err.Failed? {
        failedJobs := failedJobs + [FailedJob(jobName, elapsed, err.msg)];
        return;
      }
      successJobs := successJobs + [SuccessJob(jobName, elapsed)];
    }

    function HasErrors(): (b: bool)
      reads this
      ensures b <==> failedJobs != []
    {
      |failedJobs| > 0
    }

    /** ErrorMsg: "" without failures, otherwise one line per failure joined by ";\n". */
    function ErrorMsg(): (s: string)
      reads this
      ensures s == "" <==> !HasErrors()
      ensures s == RenderFailures(failedJobs)
    {
      RenderFailuresEmpty(failedJobs);
      RenderFailures(failedJobs)
    }
  }
}
