/**
 * internal/cases/handler/chain.go: a handler is a function of the context and a command
 * that yields an error; a middleware decorates a handler; `Chain` wraps a base handler in a
 * list of middlewares, the first of them outermost.
 *
 * Go handlers act on the world through side effects; here they take the state they act on
 * (a trace of effects, or a stack of labels in the tests) and return the new state with the
 * error.
 */
module HandlerChain {
  import opened Wrappers
  import opened RunContext

  /** Handler[CMD]: Handle(ctx, cmd) error, over an explicit state. */
  type Handler<!C, !S> = (Ctx, C, S) -> (S, Status)

  /** Middleware[CMD]: func(Handler[CMD]) Handler[CMD]. */
  type Middleware<!C, !S> = Handler<C, S> -> Handler<C, S>

  /** The nesting the source documents: ms[0](ms[1](... ms[n-1](base))). */
  function Nest<C, S>(base: Handler<C, S>, ms: seq<Middleware<C, S>>): Handler<C, S>
    decreases |ms|
  {
    if ms == [] then base else ms[0](Nest(base, ms[1..]))
  }

  /** Chain: the reverse loop builds exactly the documented nesting. */
  method Chain<C, S>(base: Handler<C, S>, ms: seq<Middleware<C, S>>) returns (r: Handler<C, S>)
    ensures r == Nest(base, ms)
  {
    r := base;
    var i := |ms|;
    while i > 0
      invariant 0 <= i <= |ms|
      invariant r == Nest(base, ms[i..])
      decreases i
    {
      i := i - 1;
      assert ms[i..][0] == ms[i] && ms[i..][1..] == ms[i + 1..];
      r := ms[i](r);
    }
  }

  /** Without middlewares the base handler is returned as it is. */
  lemma NestEmpty<C, S>(base: Handler<C, S>)
    ensures Nest(base, []) == base
  {
  }

  /** Appending a middleware wraps the base first: the last middleware is innermost. */
  lemma {:induction false} NestAppend<C, S>(base: Handler<C, S>, ms: seq<Middleware<C, S>>, m: Middleware<C, S>)
    ensures Nest(base, ms + [m]) == Nest(m(base), ms)
    decreases |ms|
  {
    if ms == [] {
      assert [m][1..] == [];
    } else {
      assert (ms + [m])[0] == ms[0] && (ms + [m])[1..] == ms[1..] + [m];
      NestAppend(base, ms[1..], m);
    }
  }

  /**
   * WithPanicRecovery (internal/cases/handler/panic.go), for handlers that do not panic: a
   * panic and its stack trace have no counterpart here, so the handler is passed through.
   */
  function WithPanicRecovery<C, S>(): Middleware<C, S> {
    (h: Handler<C, S>) => h
  }

  /** A command wrapped with panic recovery as its only middleware returns the base handler's state and error. */
  lemma PanicRecoveryTransparent<C, S>(base: Handler<C, S>, ctx: Ctx, c: C, s: S)
    ensures Nest(base, [WithPanicRecovery()])(ctx, c, s) == base(ctx, c, s)
  {
    assert [WithPanicRecovery<C, S>()][1..] == [];
  }

  // The decorators of the source's tests: each pushes "<name>: before", calls the handler it
  // wraps, pushes "<name>: after" and returns the wrapped handler's error.

  function Labelled<C>(name: string): Middleware<C, seq<string>> {
    (h: Handler<C, seq<string>>) =>
      (ctx: Ctx, c: C, st: seq<string>) =>
        var r := h(ctx, c, st + [name + ": before"]);
        (r.0 + [name + ": after"], r.1)
  }

  /** The labelled decorators for `names`, in the same order. */
  function LabelledAll<C>(names: seq<string>): (ms: seq<Middleware<C, seq<string>>>)
    ensures |ms| == |names|
    ensures forall i :: 0 <= i < |names| ==> ms[i] == Labelled(names[i])
  {
    if names == [] then [] else [Labelled(names[0])] + LabelledAll(names[1..])
  }

  function Befores(names: seq<string>): (r: seq<string>)
    ensures |r| == |names|
    ensures forall i :: 0 <= i < |names| ==> r[i] == names[i] + ": before"
  {
    seq(|names|, i requires 0 <= i < |names| => names[i] + ": before")
  }

  /** The "after" labels, innermost first: `names` reversed. */
  function Afters(names: seq<string>): (r: seq<string>)
    ensures |r| == |names|
    ensures forall i :: 0 <= i < |names| ==> r[i] == names[|names| - 1 - i] + ": after"
  {
    seq(|names|, i requires 0 <= i < |names| => names[|names| - 1 - i] + ": after")
  }

  /**
   * Running a chain of labelled decorators pushes every "before" label in list order, then
   * whatever the base pushes, then every "after" label in reverse order; the base's error is
   * the chain's error. Each decorator therefore runs exactly once, the first outermost.
   */
  lemma {:induction false} LabelledChainRun<C>(
    base: Handler<C, seq<string>>, names: seq<string>, ctx: Ctx, c: C, st: seq<string>)
    ensures Nest(base, LabelledAll(names))(ctx, c, st) ==
      var b := base(ctx, c, st + Befores(names));
      (b.0 + Afters(names), b.1)
    decreases |names|
  {
    if names == [] {
      assert st + Befores(names) == st;
      var b := base(ctx, c, st);
      assert b.0 + Afters(names) == b.0;
    } else {
      var ms := LabelledAll<C>(names);
      assert ms[1..] == LabelledAll(names[1..]);
      var inner := Nest(base, ms[1..]);
      assert Nest(base, ms) == Labelled(names[0])(inner);
      var st' := st + [names[0] + ": before"];
      LabelledChainRun(base, names[1..], ctx, c, st');
      LabelsCons(names, st);
      var b := base(ctx, c, st + Befores(names));
      assert inner(ctx, c, st') == (b.0 + Afters(names[1..]), b.1);
      assert b.0 + Afters(names[1..]) + [names[0] + ": after"] == b.0 + Afters(names);
    }
  }

  /** Peeling the outermost name off the "before" and "after" labels. */
  lemma LabelsCons(names: seq<string>, st: seq<string>)
    requires names != []
    ensures st + [names[0] + ": before"] + Befores(names[1..]) == st + Befores(names)
    ensures Afters(names[1..]) + [names[0] + ": after"] == Afters(names)
  {
    assert [names[0] + ": before"] + Befores(names[1..]) == Befores(names);
  }

  /** The base of the source's tests: pushes "base" and succeeds. */
  function PushBase<C>(): Handler<C, seq<string>> {
    (ctx: Ctx, c: C, st: seq<string>) => (st + ["base"], Ok)
  }

  /** The stack the source's chain test expects for Chain(base, mw1, mw2). */
  lemma TwoMiddlewareStack<C>(ctx: Ctx, c: C)
    ensures Nest(PushBase(), [Labelled("mw1"), Labelled("mw2")])(ctx, c, []) ==
      (["mw1: before", "mw2: before", "base", "mw2: after", "mw1: after"], Ok)
  {
    var names := ["mw1", "mw2"];
    assert LabelledAll<C>(names) == [Labelled("mw1"), Labelled("mw2")];
    LabelledChainRun(PushBase(), names, ctx, c, []);
    TwoLabels();
    var pushed: seq<string> := [] + Befores(names);
    assert pushed == ["mw1: before", "mw2: before"];
    assert PushBase<C>()(ctx, c, pushed) == (pushed + ["base"], Ok);
    assert pushed + ["base"] + Afters(names) == ["mw1: before", "mw2: before", "base", "mw2: after", "mw1: after"];
  }

  /** The labels of the two-decorator test. */
  lemma TwoLabels()
    ensures Befores(["mw1", "mw2"]) == ["mw1: before", "mw2: before"]
    ensures Afters(["mw1", "mw2"]) == ["mw2: after", "mw1: after"]
  {
    assert "mw1" + ": before" == "mw1: before" && "mw2" + ": before" == "mw2: before";
    assert "mw1" + ": after" == "mw1: after" && "mw2" + ": after" == "mw2: after";
  }
}
