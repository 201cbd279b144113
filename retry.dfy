/**
 * internal/healthchecks/retry.go: a health signal is attempted at most three times, with an
 * exponential pause before each retry; only errors marked retryable are retried.
 */
module HealthRetry {
  import opened Wrappers

  /** What one attempt of the wrapped function returned. */
  datatype Attempt =
    | Delivered
    | Rejected(msg: string, retryable: bool)   // retryable: wrapped in retryableError

  /** What withRetry does, in order: pauses (time.Sleep) and calls of the wrapped function. */
  datatype RetryEvent = Pause(seconds: nat) | Call(attempt: nat)

  const MaxRetries: nat := 3

  /** The exponent cap of backoffDuration: 1 << 63 would overflow. */
  const MaxShift: nat := 62

  function Pow2(n: nat): (r: nat)
    ensures r >= 1
  {
    if n == 0 then 1 else 2 * Pow2(n - 1)
  }

  lemma {:induction false} Pow2Monotone(m: nat, n: nat)
    requires m <= n
    ensures Pow2(m) <= Pow2(n)
    decreases n
  {
    if m < n {
      Pow2Monotone(m, n - 1);
    }
  }

  /** backoffDuration, in seconds: 2^(attempt-1), attempts below 1 counted as 1, exponent capped at 62. */
  function BackoffSeconds(attempt: int): (d: nat)
    ensures d >= 1
    ensures attempt <= 1 ==> d == 1
  {
    var a := if attempt < 1 then 1 else attempt;
    var shift := if a - 1 < MaxShift then a - 1 else MaxShift;
    Pow2(shift)
  }

  /** The pause never shrinks as the attempt number grows. */
  lemma BackoffMonotone(a: int, b: int)
    requires a <= b
    ensures BackoffSeconds(a) <= BackoffSeconds(b)
  {
    var a' := if a < 1 then 1 else a;
    var b' := if b < 1 then 1 else b;
    Pow2Monotone(if a' - 1 < MaxShift then a' - 1 else MaxShift, if b' - 1 < MaxShift then b' - 1 else MaxShift);
  }

  /** The pauses withRetry takes: one second before the second attempt, two before the third. */
  lemma BackoffSchedule()
    ensures BackoffSeconds(1) == 1 && BackoffSeconds(2) == 2
  {
    assert Pow2(1) == 2;
  }

  /** The final error after the last retryable failure. */
  function ExhaustedError(lastErr: string): Status {
    Failed("healthcheck failed after 3 retries: " + lastErr)
  }

  /**
   * The rest of withRetry from `attempt` on, given the last retryable error so far: the
   * events it produces and the error it returns.
   */
  function RetryFrom(fn: nat -> Attempt, attempt: nat, lastErr: string): (seq<RetryEvent>, Status)
    decreases MaxRetries - attempt
  {
    if attempt >= MaxRetries then ([], ExhaustedError(lastErr))
    else
      var pause := if attempt > 0 then [Pause(BackoffSeconds(attempt))] else [];
      var a := fn(attempt);
      if a.Delivered? then (pause + [Call(attempt)], Ok)
      else if !a.retryable then (pause + [Call(attempt)], Failed(a.msg))
      else
        var rest := RetryFrom(fn, attempt + 1, a.msg);
        (pause + [Call(attempt)] + rest.0, rest.1)
  }

  /** withRetry: the counted loop, proved to behave as RetryFrom from the first attempt. */
  method WithRetry(fn: nat -> Attempt) returns (events: seq<RetryEvent>, err: Status)
    ensures (events, err) == RetryFrom(fn, 0, "")
  {
    var lastErr := "";
    events := [];
    var attempt: nat := 0;
    while attempt < MaxRetries
      invariant attempt <= MaxRetries
      invariant RetryFrom(fn, 0, "").1 == RetryFrom(fn, attempt, lastErr).1
      invariant RetryFrom(fn, 0, "").0 == events + RetryFrom(fn, attempt, lastErr).0
      decreases MaxRetries - attempt
    {
      ghost var before := events;
      ghost var pause := if attempt > 0 then [Pause(BackoffSeconds(attempt))] else [];
      if attempt > 0 {
        events := events + [Pause(BackoffSeconds(attempt))];
      }
      assert events == before + pause;
      var a := fn(attempt);
      events := events + [Call(attempt)];
      assert events == before + (pause + [Call(attempt)]);
      if a.Delivered? {
        err := Ok;
        return;
      }
      if !a.retryable {
        err := Failed(a.msg);
        return;
      }
      assert RetryFrom(fn, attempt, lastErr).0
        == (pause + [Call(attempt)]) + RetryFrom(fn, attempt + 1, a.msg).0;
      lastErr := a.msg;
      attempt := attempt + 1;
    }
    assert RetryFrom(fn, attempt, lastErr) == ([], ExhaustedError(lastErr));
    assert events + [] == events;
    err := ExhaustedError(lastErr);
  }

  /**
   * Every way withRetry can go: the wrapped function is called at most three times, with no
   * pause before the first call and pauses of 1 s and 2 s before the second and third; the
   * first success or the first non-retryable error ends it with that outcome; three
   * retryable errors end it with an error wrapping the last one.
   */
  lemma RetryOutcomes(fn: nat -> Attempt)
    ensures var r := RetryFrom(fn, 0, "");
      var a0, a1, a2 := fn(0), fn(1), fn(2);
      if !a0.Rejected? || !a0.retryable then
        r == ([Call(0)], if a0.Delivered? then Ok else Failed(a0.msg))
      else if !a1.Rejected? || !a1.retryable then
        r == ([Call(0), Pause(1), Call(1)], if a1.Delivered? then Ok else Failed(a1.msg))
      else if !a2.Rejected? || !a2.retryable then
        r == ([Call(0), Pause(1), Call(1), Pause(2), Call(2)], if a2.Delivered? then Ok else Failed(a2.msg))
      else
        r == ([Call(0), Pause(1), Call(1), Pause(2), Call(2)], ExhaustedError(a2.msg))
  {
    BackoffSchedule();
    var a0, a1, a2 := fn(0), fn(1), fn(2);
    var none: seq<RetryEvent> := [];
    assert none + [Call(0)] == [Call(0)];
    if a0.Rejected? && a0.retryable {
      var r1 := RetryFrom(fn, 1, a0.msg);
      if a1.Rejected? && a1.retryable {
        var r2 := RetryFrom(fn, 2, a1.msg);
        if a2.Rejected? && a2.retryable {
          assert RetryFrom(fn, 3, a2.msg) == ([], ExhaustedError(a2.msg));
          assert r2.0 == [Pause(2), Call(2)] + [];
        } else {
          assert r2.0 == [Pause(2), Call(2)];
        }
        assert r2.0 == [Pause(2), Call(2)];
        if !a2.Rejected? || !a2.retryable {
          assert r2 == ([Pause(2), Call(2)], if a2.Delivered? then Ok else Failed(a2.msg));
        }
        assert r1.0 == [Pause(1), Call(1)] + r2.0;
        assert r1 == ([Pause(1), Call(1)] + r2.0, r2.1);
        assert [Call(0)] + r1.0 == [Call(0), Pause(1), Call(1), Pause(2), Call(2)];
      } else {
        assert r1.0 == [Pause(1), Call(1)];
        assert r1 == ([Pause(1), Call(1)], if a1.Delivered? then Ok else Failed(a1.msg));
        assert [Call(0)] + r1.0 == [Call(0), Pause(1), Call(1)];
      }
      assert RetryFrom(fn, 0, "") == ([Call(0)] + r1.0, r1.1);
    }
  }

  /** withRetry succeeds only through a call, among the events, whose attempt was delivered. */
  lemma DeliveredByACall(fn: nat -> Attempt)
    ensures var r := RetryFrom(fn, 0, "");
      r.1 == Ok ==> exists i :: 0 <= i < MaxRetries && Call(i) in r.0 && fn(i).Delivered?
  {
    RetryOutcomes(fn);
    var r := RetryFrom(fn, 0, "");
    if r.1 == Ok {
      if fn(0).Delivered? {
        assert r.0[0] == Call(0);
      } else if fn(1).Delivered? {
        assert r.0[2] == Call(1);
      } else {
        assert r.0[4] == Call(2);
      }
    }
  }

  /** The number of calls of the wrapped function among the events. */
  function Calls(events: seq<RetryEvent>): nat {
    if events == [] then 0 else (if events[0].Call? then 1 else 0) + Calls(events[1..])
  }

  lemma CallsAppend(a: seq<RetryEvent>, b: seq<RetryEvent>)
    ensures Calls(a + b) == Calls(a) + Calls(b)
  {
    if a != [] {
      assert (a + b)[0] == a[0];
      assert (a + b)[1..] == a[1..] + b;
      CallsAppend(a[1..], b);
    } else {
      assert a + b == b;
    }
  }

  /** From attempt `k` on, at most 3 - k further calls; so at most three calls in all. */
  lemma {:induction false} AtMostThreeCalls(fn: nat -> Attempt, k: nat, lastErr: string)
    requires k <= MaxRetries
    ensures Calls(RetryFrom(fn, k, lastErr).0) <= MaxRetries - k
    decreases MaxRetries - k
  {
    if k < MaxRetries {
      var pause := if k > 0 then [Pause(BackoffSeconds(k))] else [];
      assert Calls(pause) == 0 by {
        if k > 0 { assert pause[1..] == []; }
      }
      assert Calls([Call(k)]) == 1 by {
        assert [Call(k)][1..] == [];
      }
      CallsAppend(pause, [Call(k)]);
      var a := fn(k);
      if a.Rejected? && a.retryable {
        AtMostThreeCalls(fn, k + 1, a.msg);
        CallsAppend(pause + [Call(k)], RetryFrom(fn, k + 1, a.msg).0);
      }
    }
  }
}
