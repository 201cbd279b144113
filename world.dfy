/**
 * The outside world of the orchestration pipeline. Every shell command (restic and hooks)
 * and every health signal is appended to a trace; what a command returns, the order in
 * which Go iterates an option map and the run ids `uuid.NewString` yields come from an
 * oracle that may consult the trace so far.
 */
module World {
  import opened Wrappers
  import opened RunContext
  import opened Entity

  /** shell.Executor.Run(ctx, service, args...): the command and the context it runs in. */
  datatype Invocation = Invocation(service: string, args: seq<string>, ctx: Ctx)

  /** shell.Result: the exit code and the error (nil on success). */
  datatype ShellResult = ShellResult(exitCode: int, error: Status)

  datatype SignalKind = StartPing | SuccessPing | FailPing

  /** The body the health-signal middleware sends: job name and error text. */
  datatype Payload = Payload(jobName: string, err: string)

  datatype Effect =
    | Ran(inv: Invocation, result: ShellResult)
    | Signal(kind: SignalKind, url: string, rid: string, payload: Payload)

  type Trace = seq<Effect>

  datatype Oracle = Oracle(
    run: (Trace, Invocation) -> ShellResult,
    keyOrder: (Trace, map<string, Value>) -> seq<string>,
    newRid: Trace -> string)

  /** Runs one shell command: the oracle answers and the run is recorded. */
  function Exec(o: Oracle, t: Trace, inv: Invocation): (r: (Trace, ShellResult))
    ensures r.0 == t + [Ran(inv, r.1)]
    ensures r.1 == o.run(t, inv)
  {
    var res := o.run(t, inv);
    (t + [Ran(inv, res)], res)
  }

  /** One effectful step over an item, as the sequencing loops of the source perform it. */
  type Step<!X> = (X, Trace) -> (Trace, Status)

  /**
   * Runs `step` over `xs` in order and stops at the first error, which it returns; nil
   * when every item succeeded. This is the shape of the repository loops of the check and
   * forget handlers, of executeHooks, and of the backup and copy step sequences.
   */
  function RunAll<X>(step: Step<X>, xs: seq<X>, t: Trace): (Trace, Status)
    decreases |xs|
  {
    if xs == [] then (t, Ok)
    else
      var r := step(xs[0], t);
      if r.1.Failed? then r else RunAll(step, xs[1..], r.0)
  }

  /** How many items RunAll hands to `step`: all of them, or up to and including the first failure. */
  function Processed<X>(step: Step<X>, xs: seq<X>, t: Trace): (n: nat)
    ensures n <= |xs|
    decreases |xs|
  {
    if xs == [] then 0
    else
      var r := step(xs[0], t);
      if r.1.Failed? then 1 else 1 + Processed(step, xs[1..], r.0)
  }

  /** One step of RunAll and of Processed, for a non-empty list. */
  lemma RunAllStep<X>(step: Step<X>, xs: seq<X>, t: Trace)
    requires xs != []
    ensures var r := step(xs[0], t);
      RunAll(step, xs, t) == (if r.1.Failed? then r else RunAll(step, xs[1..], r.0))
      && Processed(step, xs, t) == (if r.1.Failed? then 1 else 1 + Processed(step, xs[1..], r.0))
  {
  }

  /** RunAll and Processed from position `i` of a list: item `i`'s step, then the rest from `i + 1`. */
  lemma RunAllAt<X>(step: Step<X>, xs: seq<X>, i: int, t: Trace)
    requires 0 <= i < |xs|
    ensures var r := step(xs[i], t);
      RunAll(step, xs[i..], t) == (if r.1.Failed? then r else RunAll(step, xs[i + 1..], r.0))
      && Processed(step, xs[i..], t) == (if r.1.Failed? then 1 else 1 + Processed(step, xs[i + 1..], r.0))
  {
    RunAllStep(step, xs[i..], t);
    assert xs[i..][0] == xs[i] && xs[i..][1..] == xs[i + 1..];
  }

  /** RunAll over two items: the first, then the second unless the first failed. */
  lemma RunAllTwo<X>(step: Step<X>, a: X, b: X, t: Trace)
    ensures RunAll(step, [a, b], t) ==
      var r1 := step(a, t);
      if r1.1.Failed? then r1 else
      var r2 := step(b, r1.0);
      if r2.1.Failed? then r2 else (r2.0, Ok)
  {
    assert [a, b][1..] == [b] && [b][1..] == [];
    RunAllStep(step, [a, b], t);
    var r1 := step(a, t);
    if r1.1.Ok? {
      RunAllStep(step, [b], r1.0);
    }
  }

  /** Item `k` is the first failing one: every earlier item succeeded and its error is the result. */
  ghost predicate FailsAt<X>(step: Step<X>, xs: seq<X>, t: Trace, k: int)
  {
    0 <= k < |xs|
    && RunAll(step, xs[..k], t).1 == Ok
    && step(xs[k], RunAll(step, xs[..k], t).0) == RunAll(step, xs, t)
    && RunAll(step, xs, t).1.Failed?
    && Processed(step, xs, t) == k + 1
  }

  /** Once a prefix has succeeded, RunAll goes on with the rest from the prefix's trace. */
  lemma {:induction false} RunAllSplit<X>(step: Step<X>, xs: seq<X>, t: Trace, k: nat)
    requires k <= |xs|
    requires RunAll(step, xs[..k], t).1 == Ok
    ensures RunAll(step, xs, t) == RunAll(step, xs[k..], RunAll(step, xs[..k], t).0)
    ensures Processed(step, xs, t) == k + Processed(step, xs[k..], RunAll(step, xs[..k], t).0)
    decreases k
  {
    if k > 0 {
      var r := step(xs[0], t);
      assert xs[..k][0] == xs[0] && xs[..k][1..] == xs[1..][..k - 1];
      assert !r.1.Failed?;
      RunAllSplit(step, xs[1..], r.0, k - 1);
      assert xs[1..][k - 1..] == xs[k..];
    }
  }

  /** A failed run failed at exactly one item, the first failing one; nothing after it ran. */
  lemma {:induction false} RunAllFailure<X>(step: Step<X>, xs: seq<X>, t: Trace)
    requires RunAll(step, xs, t).1.Failed?
    ensures exists k :: FailsAt(step, xs, t, k)
    decreases |xs|
  {
    var r := step(xs[0], t);
    if r.1.Failed? {
      assert xs[..0] == [];
      assert FailsAt(step, xs, t, 0);
    } else {
      RunAllFailure(step, xs[1..], r.0);
      var k :| FailsAt(step, xs[1..], r.0, k);
      assert xs[..k + 1][0] == xs[0] && xs[..k + 1][1..] == xs[1..][..k];
      assert xs[1..][k] == xs[k + 1];
      assert FailsAt(step, xs, t, k + 1);
    }
  }

  /** A successful run handed every item to `step`, and every prefix succeeded too. */
  lemma {:induction false} RunAllSuccess<X>(step: Step<X>, xs: seq<X>, t: Trace, k: nat)
    requires RunAll(step, xs, t).1 == Ok
    requires k <= |xs|
    ensures Processed(step, xs, t) == |xs|
    ensures RunAll(step, xs[..k], t).1 == Ok
    decreases |xs|
  {
    if xs != [] {
      var r := step(xs[0], t);
      assert !r.1.Failed?;
      if k > 0 {
        RunAllSuccess(step, xs[1..], r.0, k - 1);
        assert xs[..k][0] == xs[0] && xs[..k][1..] == xs[1..][..k - 1];
      } else {
        RunAllSuccess(step, xs[1..], r.0, 0);
      }
    }
  }
}
