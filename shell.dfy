/**
 * internal/shell/executor.go, formatCommand: the one-line rendering of a command and its
 * arguments used when commands are printed. Arguments with white space or shell
 * metacharacters are wrapped in double quotes, with every `"` inside escaped as `\"`.
 */
module Shell {
  import opened Strings

  /** The characters that make formatCommand quote an argument. */
  const Special: set<char> := {' ', '\t', '\n', '"', '\'', '`', '$', '\\'}

  /** strings.ReplaceAll(a, `"`, `\"`): one backslash is added per quote, and nothing else. */
  function Escape(a: string): (r: string)
    ensures |r| == |a| + Quotes(a)
    decreases |a|
  {
    if a == [] then []
    else (if a[0] == '"' then "\\\"" else [a[0]]) + Escape(a[1..])
  }

  /** The number of double quotes in `a`. */
  function Quotes(a: string): nat
    decreases |a|
  {
    if a == [] then 0 else (if a[0] == '"' then 1 else 0) + Quotes(a[1..])
  }

  /** The inverse of Escape: a backslash followed by a quote stands for the quote. */
  function Unescape(s: string): string
    decreases |s|
  {
    if s == [] then []
    else if |s| >= 2 && s[0] == '\\' && s[1] == '"' then "\"" + Unescape(s[2..])
    else [s[0]] + Unescape(s[1..])
  }

  /**
   * Escaping loses nothing, and every `"` inside the escaped text follows a backslash.
   * Backslashes themselves are left alone, so an argument ending in `\` renders with a
   * backslash before its closing quote.
   */
  lemma {:induction false} EscapeRoundTrip(a: string)
    ensures Unescape(Escape(a)) == a
    ensures forall i :: 0 <= i < |Escape(a)| && Escape(a)[i] == '"' ==> i > 0 && Escape(a)[i - 1] == '\\'
    decreases |a|
  {
    if a != [] {
      EscapeRoundTrip(a[1..]);
      var e := Escape(a);
      var tail := Escape(a[1..]);
      if a[0] == '"' {
        assert e == "\\\"" + tail;
        assert e[2..] == tail;
        forall i | 0 <= i < |e| && e[i] == '"' ensures i > 0 && e[i - 1] == '\\' {
          if i >= 2 {
            assert tail[i - 2] == e[i];
            if i - 2 > 0 { assert tail[i - 3] == e[i - 1]; }
          }
        }
      } else {
        assert e == [a[0]] + tail;
        assert e[1..] == tail;
        forall i | 0 <= i < |e| && e[i] == '"' ensures i > 0 && e[i - 1] == '\\' {
          if i >= 1 {
            assert tail[i - 1] == e[i];
            if i - 1 > 0 { assert tail[i - 2] == e[i - 1]; }
          }
        }
      }
    }
  }

  /** How one argument appears on the line. */
  function Render(a: string): (r: string)
    ensures !ContainsAny(a, Special) ==> r == a
    ensures ContainsAny(a, Special) ==>
      |r| >= 2 && r[0] == '"' && r[|r| - 1] == '"' && Unescape(r[1..|r| - 1]) == a
  {
    if ContainsAny(a, Special) then
      var r := "\"" + Escape(a) + "\"";
      EscapeRoundTrip(a);
      assert r[1..|r| - 1] == Escape(a);
      r
    else a
  }

  /** The line as the builder accumulates it: command, then " " and the rendering of each argument. */
  function Line(cmd: string, args: seq<string>): string
    decreases |args|
  {
    if args == [] then cmd
    else Line(cmd, args[..|args| - 1]) + " " + Render(args[|args| - 1])
  }

  /** The text after the command: every argument preceded by exactly one space. */
  function ArgsText(args: seq<string>): string
    decreases |args|
  {
    if args == [] then "" else " " + Render(args[0]) + ArgsText(args[1..])
  }

  lemma {:induction false} ArgsTextAppend(args: seq<string>, a: string)
    ensures ArgsText(args + [a]) == ArgsText(args) + " " + Render(a)
    decreases |args|
  {
    if args == [] {
      assert [a][1..] == [];
    } else {
      assert (args + [a])[0] == args[0] && (args + [a])[1..] == args[1..] + [a];
      ArgsTextAppend(args[1..], a);
    }
  }

  /**
   * The line is the command followed by the arguments' text: it starts with the command,
   * is the bare command without arguments, and holds each argument after one space, in order.
   */
  lemma {:induction false} LineShape(cmd: string, args: seq<string>)
    ensures Line(cmd, args) == cmd + ArgsText(args)
    decreases |args|
  {
    if args != [] {
      var init := args[..|args| - 1];
      var last := args[|args| - 1];
      LineShape(cmd, init);
      assert args == init + [last];
      ArgsTextAppend(init, last);
    }
  }

  /** formatCommand: the builder loop, proved to produce Line(cmd, args). */
  method FormatCommand(cmd: string, args: seq<string>) returns (s: string)
    ensures s == Line(cmd, args)
    ensures HasPrefix(s, cmd)
  {
    s := cmd;
    var i := 0;
    while i < |args|
      invariant 0 <= i <= |args|
      invariant s == Line(cmd, args[..i])
      decreases |args| - i
    {
      var a := args[i];
      s := s + " ";
      if ContainsAny(a, Special) {
        s := s + "\"";
        s := s + Escape(a);
        s := s + "\"";
        assert args[..i + 1][..i] == args[..i];
        i := i + 1;
        continue;
      }
      s := s + a;
      assert args[..i + 1][..i] == args[..i];
      i := i + 1;
    }
    assert args[..|args|] == args;
    LineShape(cmd, args);
  }
}
