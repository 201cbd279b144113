/**
 * internal/cron/cron.go: choosing the jobs whose cron schedule fired since the last run, and
 * moving the last-run watermark forward to now.
 */
module Cron {
  import opened Wrappers
  import opened Entity
  import opened Seqs

  /** Instants, as a count of some fixed unit; only their order matters here. */
  type Time = int

  /** A parsed cron schedule: the first activation after a given instant. */
  datatype Schedule = Schedule(next: Time -> Time)

  /** The cron parser (five fields or a descriptor), outside the model. */
  type CronParser = string -> Result<Schedule, string>

  /**
   * A job is due iff it has a cron expression, the expression parses, and its first
   * activation after `lastRun` lies strictly before `now`: an activation at `now` itself is
   * not due.
   */
  predicate Due(parse: CronParser, lastRun: Time, now: Time, j: Job) {
    j.cron != "" && parse(j.cron).Success? && parse(j.cron).value.next(lastRun) < now
  }

  /** The filter pass: the due jobs, in their original order. */
  function FilterDue(parse: CronParser, lastRun: Time, now: Time, jobs: seq<Job>): (r: seq<Job>)
    ensures IsSubsequence(r, jobs)
    ensures forall i :: 0 <= i < |r| ==> Due(parse, lastRun, now, r[i])
    ensures forall i :: 0 <= i < |jobs| && Due(parse, lastRun, now, jobs[i]) ==> jobs[i] in r
    decreases |jobs|
  {
    if jobs == [] then []
    else
      var rest := FilterDue(parse, lastRun, now, jobs[1..]);
      assert forall i :: 1 <= i < |jobs| ==> jobs[i] == jobs[1..][i - 1];
      if Due(parse, lastRun, now, jobs[0]) then [jobs[0]] + rest else rest
  }

  /**
   * The filter keeps every copy of a due job and no copy of any other: a job listed twice and
   * due is run twice.
   */
  lemma {:induction false} FilterDueCounts(parse: CronParser, lastRun: Time, now: Time, jobs: seq<Job>, x: Job)
    ensures multiset(FilterDue(parse, lastRun, now, jobs))[x] ==
      if Due(parse, lastRun, now, x) then multiset(jobs)[x] else 0
    decreases |jobs|
  {
    if jobs != [] {
      FilterDueCounts(parse, lastRun, now, jobs[1..], x);
      assert jobs == [jobs[0]] + jobs[1..];
      assert multiset(jobs) == multiset{jobs[0]} + multiset(jobs[1..]);
    }
  }

  /**
   * When every parseable schedule only fires after `lastRun`'s own instant is passed, which is
   * the case when `lastRun` is `now`, nothing is due: the watermark fallback on a failed load
   * runs no job at all.
   */
  lemma {:induction false} NothingDueFromNow(parse: CronParser, now: Time, jobs: seq<Job>)
    requires forall i :: 0 <= i < |jobs| && parse(jobs[i].cron).Success? ==>
      parse(jobs[i].cron).value.next(now) >= now
    ensures FilterDue(parse, now, now, jobs) == []
    decreases |jobs|
  {
    if jobs != [] {
      assert forall i :: 1 <= i < |jobs| ==> jobs[i] == jobs[1..][i - 1];
      NothingDueFromNow(parse, now, jobs[1..]);
    }
  }

  /**
   * The state file holding the watermark: what loading it would return, and whether saving
   * to it would fail.
   */
  class StateFile {
    var content: Result<Time, string>
    var saveError: Option<string>

    constructor(content: Result<Time, string>, saveError: Option<string>)
      ensures this.content == content && this.saveError == saveError
    {
      this.content := content;
      this.saveError := saveError;
    }

    /** loadState. */
    method Load() returns (r: Result<Time, string>)
      ensures r == content
    {
      r := content;
    }

    /** saveState: on success the file holds `t`; on failure it is left as it was. */
    method Save(t: Time) returns (err: Status)
      modifies this
      ensures saveError == old(saveError)
      ensures saveError.None? ==> err == Ok && content == Success(t)
      ensures saveError.Some? ==> err == Failed(saveError.value) && content == old(content)
    {
      if saveError.Some? {
        return Failed(saveError.value);
      }
      content := Success(t);
      err := Ok;
    }
  }

  /**
   * FilterJobsByCron, with `now` read once by the caller: the due jobs since the saved
   * watermark (or since `now` when it cannot be loaded), after saving `now` as the new
   * watermark whatever was due; a failed save discards the jobs and returns its error.
   */
  method FilterJobsByCron(state: StateFile, parse: CronParser, now: Time, jobs: seq<Job>)
    returns (r: Result<seq<Job>, string>)
    modifies state
    ensures state.saveError == old(state.saveError)
    ensures var lastRun := if old(state.content).Success? then old(state.content).value else now;
      state.saveError.None? ==>
        r == Success(FilterDue(parse, lastRun, now, jobs)) && state.content == Success(now)
    ensures state.saveError.Some? ==>
      r == Failure(state.saveError.value) && state.content == old(state.content)
  {
    var loaded := state.Load();
    var lastRun := if loaded.Success? then loaded.value else now;
    var due := FilterDue(parse, lastRun, now, jobs);
    var err := state.Save(now);
    if err.Failed? {
      return Failure(err.msg);
    }
    r := Success(due);
  }
}
