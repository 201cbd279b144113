/**
 * internal/entity/options.go: turning an option map into restic command-line flags, and
 * merging two option maps. Keys starting with "-" are taken as written (short options),
 * every other key becomes a long option "--key".
 */
module OptionArgs {
  import opened Entity
  import opened Strings
  import opened Seqs

  /** valueToString: the text of a string or integer value, "" for every unsupported type. */
  function ValueToString(v: Value): (r: string)
    ensures v.VString? ==> r == v.s
    ensures (v.VInt? || v.VInt64?) ==> r != "" && Atoi(r) == v.i
    ensures v.VFloat? ==> r == v.repr
    ensures (v.VBool? || v.VArray? || v.VOther?) ==> r == ""
  {
    match v
    case VString(s) => s
    case VInt(i) => ItoaRoundTrip(i); Itoa(i)
    case VInt64(i) => ItoaRoundTrip(i); Itoa(i)
    case VFloat(repr) => repr
    case _ => ""
  }

  predicate HasFlagHyphen(key: string) {
    HasPrefix(key, "-")
  }

  /** formatFlag: a key already starting with "-" is kept, any other gets "--" in front. */
  function FormatFlag(flag: string): (r: string)
    ensures HasFlagHyphen(r)
    ensures |flag| <= |r| && r[|r| - |flag|..] == flag
    ensures r == flag <==> HasFlagHyphen(flag)
  {
    if HasFlagHyphen(flag) then flag else "--" + flag
  }

  /** Formatting a formatted flag changes nothing. */
  lemma FormatFlagIdempotent(flag: string)
    ensures FormatFlag(FormatFlag(flag)) == FormatFlag(flag)
  {
    assert HasFlagHyphen(FormatFlag(flag));
  }

  /** Two keys format to the same flag only if they are equal or one is the other with "--" in front. */
  lemma FormatFlagCollision(a: string, b: string)
    requires FormatFlag(a) == FormatFlag(b)
    ensures a == b || a == "--" + b || b == "--" + a
  {
  }

  /** toBoolArgs: the bare flag when true, nothing when false. */
  function BoolArgs(flag: string, b: bool): (r: seq<string>)
    ensures r != [] <==> b
    ensures forall i :: 0 <= i < |r| ==> r[i] == flag
    ensures |r| <= 1
  {
    if !b then [] else [flag]
  }

  /** toScalarArgs: the flag followed by the value's text, or nothing when that text is empty. */
  function ScalarArgs(flag: string, v: Value): (r: seq<string>)
    ensures r == [] <==> ValueToString(v) == ""
    ensures r != [] ==> r == [flag, ValueToString(v)]
  {
    var s := ValueToString(v);
    if s == "" then [] else [flag, s]
  }

  /** The texts of the elements of an array option that produce an argument, in order. */
  function NonEmptyTexts(items: seq<Value>): (r: seq<string>)
    ensures |r| <= |items|
    ensures forall i :: 0 <= i < |r| ==> r[i] != ""
    decreases |items|
  {
    if items == [] then []
    else
      var s := ValueToString(items[0]);
      (if s == "" then [] else [s]) + NonEmptyTexts(items[1..])
  }

  /** toArrayArgs: the scalar arguments of every element, flattened in order. */
  function ArrayArgs(flag: string, items: seq<Value>): seq<string> {
    FlatMap((v: Value) => ScalarArgs(flag, v), items)
  }

  /**
   * The flag comes once per element with a non-empty text, each time followed by that
   * text; elements with an empty text contribute nothing.
   */
  lemma {:induction false} ArrayArgsShape(flag: string, items: seq<Value>)
    ensures |ArrayArgs(flag, items)| == 2 * |NonEmptyTexts(items)|
    ensures forall i :: 0 <= i < |NonEmptyTexts(items)| ==>
      ArrayArgs(flag, items)[2 * i] == flag && ArrayArgs(flag, items)[2 * i + 1] == NonEmptyTexts(items)[i]
    decreases |items|
  {
    if items != [] {
      ArrayArgsShape(flag, items[1..]);
      var head := ScalarArgs(flag, items[0]);
      var tail := ArrayArgs(flag, items[1..]);
      var texts := NonEmptyTexts(items[1..]);
      assert ArrayArgs(flag, items) == head + tail;
      assert NonEmptyTexts(items) == (if head == [] then [] else [head[1]]) + texts;
      if head != [] {
        forall i | 1 <= i < |NonEmptyTexts(items)|
          ensures (head + tail)[2 * i] == flag && (head + tail)[2 * i + 1] == NonEmptyTexts(items)[i]
        {
          assert (head + tail)[2 * i] == tail[2 * (i - 1)];
          assert (head + tail)[2 * i + 1] == tail[2 * (i - 1) + 1];
          assert NonEmptyTexts(items)[i] == texts[i - 1];
        }
      }
    }
  }

  /** The arguments one option entry contributes, dispatched on the value's type. */
  function KeyArgs(flag: string, v: Value): (r: seq<string>)
    ensures v.VBool? ==> r == BoolArgs(flag, v.b)
    ensures v.VArray? ==> r == ArrayArgs(flag, v.items)
    ensures !v.VBool? && !v.VArray? ==> r == ScalarArgs(flag, v)
  {
    match v
    case VBool(b) => BoolArgs(flag, b)
    case VArray(items) => ArrayArgs(flag, items)
    case _ => ScalarArgs(flag, v)
  }

  /** The arguments of the key `k` of `m` (none for a key that is not there). */
  function EntryArgs(m: map<string, Value>): string -> seq<string> {
    (k: string) => if k in m then KeyArgs(FormatFlag(k), m[k]) else []
  }

  /**
   * ToArgs, with the keys visited in `order`: the order in which Go happens to iterate the
   * map. Only an enumeration of the map's keys is a real iteration order.
   */
  function ToArgs(opts: Options, order: seq<string>): seq<string> {
    FlatMap(EntryArgs(opts.Entries()), order)
  }

  /** A nil or empty option map yields no arguments. */
  lemma {:induction false} ToArgsEmpty(opts: Options, order: seq<string>)
    requires opts.Entries() == map[]
    requires IsEnumeration(order, opts.Entries().Keys)
    ensures ToArgs(opts, order) == []
  {
    HeadMember(order);
  }

  /**
   * The arguments are fixed up to the map's iteration order: any two iteration orders give
   * the same multiset of arguments.
   */
  lemma ToArgsOrderIndependent(opts: Options, o1: seq<string>, o2: seq<string>)
    requires IsEnumeration(o1, opts.Entries().Keys)
    requires IsEnumeration(o2, opts.Entries().Keys)
    ensures multiset(ToArgs(opts, o1)) == multiset(ToArgs(opts, o2))
  {
    FlatMapPermutation(EntryArgs(opts.Entries()), o1, o2);
  }

  /** A map with one entry yields exactly that entry's arguments. */
  lemma ToArgsSingle(k: string, v: Value, order: seq<string>)
    requires IsEnumeration(order, {k})
    ensures ToArgs(Options(map[k := v]), order) == KeyArgs(FormatFlag(k), v)
  {
    SingletonEnumeration(order, k);
    var m := map[k := v];
    assert Options(m).Entries() == m;
    assert EntryArgs(m)(k) == KeyArgs(FormatFlag(k), v);
    assert order[1..] == [];
    assert FlatMap(EntryArgs(m), order) == EntryArgs(m)(k) + FlatMap(EntryArgs(m), []);
  }

  /** The option-map cases of the source's tests, one entry each. */
  lemma ToArgsBoolExamples()
    ensures ToArgs(Options(map["verbose" := VBool(true)]), ["verbose"]) == ["--verbose"]
    ensures ToArgs(Options(map["-v" := VBool(false)]), ["-v"]) == []
  {
    assert FormatFlag("verbose") == "--verbose" by {
      assert !HasFlagHyphen("verbose") by { assert "verbose"[..1] == "v"; }
    }
    ToArgsSingle("verbose", VBool(true), ["verbose"]);
    ToArgsSingle("-v", VBool(false), ["-v"]);
  }

  lemma ToArgsStringExample()
    ensures ToArgs(Options(map["-n" := VString("5")]), ["-n"]) == ["-n", "5"]
  {
    assert FormatFlag("-n") == "-n" by {
      assert "-n"[..1] == "-";
    }
    ToArgsSingle("-n", VString("5"), ["-n"]);
  }

  lemma ToArgsIntExample()
    ensures ToArgs(Options(map["keep-daily" := VInt(7)]), ["keep-daily"]) == ["--keep-daily", "7"]
  {
    ToArgsSingle("keep-daily", VInt(7), ["keep-daily"]);
    SevenText();
    KeepDailyFlag();
    assert KeyArgs("--keep-daily", VInt(7)) == ScalarArgs("--keep-daily", VInt(7));
  }

  lemma SevenText()
    ensures ValueToString(VInt(7)) == "7"
  {
    assert NatDigits(7) == [DigitChar(7)];
  }

  lemma KeepDailyFlag()
    ensures FormatFlag("keep-daily") == "--keep-daily"
  {
    assert !HasFlagHyphen("keep-daily") by { assert "keep-daily"[..1] == "k"; }
  }

  lemma ToArgsArrayExample()
    ensures ToArgs(Options(map["exclude" := VArray([VString("*.tmp"), VString("node_modules")])]), ["exclude"])
      == ["--exclude", "*.tmp", "--exclude", "node_modules"]
  {
    var items := [VString("*.tmp"), VString("node_modules")];
    assert FormatFlag("exclude") == "--exclude" by {
      assert !HasFlagHyphen("exclude") by { assert "exclude"[..1] == "e"; }
    }
    ToArgsSingle("exclude", VArray(items), ["exclude"]);
    assert NonEmptyTexts(items) == ["*.tmp", "node_modules"] by {
      assert items[1..] == [VString("node_modules")];
      assert items[1..][1..] == [];
    }
  }

  // Merge.

  /** Some key of `ks` formats to the flag `f`. */
  ghost predicate Covers(ks: set<string>, f: string) {
    exists k :: k in ks && FormatFlag(k) == f
  }

  /** `v` is the value of some key of `ks` in `m` that formats to `f`. */
  ghost predicate ValueFrom(m: map<string, Value>, ks: set<string>, f: string, v: Value) {
    exists k :: k in ks && k in m && FormatFlag(k) == f && m[k] == v
  }

  /** The map after the keys `done` of `a` were copied under their formatted names. */
  ghost predicate FirstPass(a: map<string, Value>, done: set<string>, result: map<string, Value>) {
    (forall f :: f in result <==> Covers(done, f))
    && (forall f :: f in result ==> ValueFrom(a, done, f, result[f]))
  }

  /** Copying one more key of `a` keeps FirstPass. */
  lemma FirstPassStep(a: map<string, Value>, done: set<string>, k: string, result: map<string, Value>)
    requires k in a && FirstPass(a, done, result)
    ensures FirstPass(a, done + {k}, result[FormatFlag(k) := a[k]])
  {
    var result' := result[FormatFlag(k) := a[k]];
    forall f | f in result' ensures Covers(done + {k}, f) && ValueFrom(a, done + {k}, f, result'[f]) {
      if f != FormatFlag(k) {
        var k' :| k' in done && k' in a && FormatFlag(k') == f && result[f] == a[k'];
      }
    }
    forall f | Covers(done + {k}, f) ensures f in result' {
      var k' :| k' in done + {k} && FormatFlag(k') == f;
      if k' != k {
        assert Covers(done, f);
      }
    }
  }

  /** The map after all of `a` and the keys `done` of `b` were copied, `b` overwriting. */
  ghost predicate SecondPass(a: map<string, Value>, b: map<string, Value>, done: set<string>, result: map<string, Value>) {
    (forall f :: f in result <==> Covers(a.Keys, f) || Covers(done, f))
    && (forall f :: f in result && Covers(done, f) ==> ValueFrom(b, done, f, result[f]))
    && (forall f :: f in result && !Covers(done, f) ==> ValueFrom(a, a.Keys, f, result[f]))
  }

  /** Copying one more key of `b` keeps SecondPass. */
  lemma SecondPassStep(a: map<string, Value>, b: map<string, Value>, done: set<string>, k: string,
                       result: map<string, Value>)
    requires k in b && SecondPass(a, b, done, result)
    ensures SecondPass(a, b, done + {k}, result[FormatFlag(k) := b[k]])
  {
    var result' := result[FormatFlag(k) := b[k]];
    forall f | f in result' && Covers(done + {k}, f) ensures ValueFrom(b, done + {k}, f, result'[f]) {
      if f != FormatFlag(k) {
        var k' :| k' in done + {k} && FormatFlag(k') == f;
        assert Covers(done, f);
        var k'' :| k'' in done && k'' in b && FormatFlag(k'') == f && result[f] == b[k''];
      }
    }
    forall f | f in result' && !Covers(done + {k}, f) ensures ValueFrom(a, a.Keys, f, result'[f]) {
      assert f != FormatFlag(k);
      assert !Covers(done, f);
    }
    forall f | Covers(a.Keys, f) || Covers(done + {k}, f) ensures f in result' {
      if f != FormatFlag(k) && !Covers(a.Keys, f) {
        var k' :| k' in done + {k} && FormatFlag(k') == f;
        assert Covers(done, f);
      }
    }
    forall f | f in result' ensures Covers(a.Keys, f) || Covers(done + {k}, f) {
      if f == FormatFlag(k) {
        assert Covers(done + {k}, f);
      } else if !Covers(a.Keys, f) {
        var k' :| k' in done && FormatFlag(k') == f;
      }
    }
  }

  /**
   * Merge builds a fresh, non-nil map keyed by the formatted keys of both maps, where
   * `other` wins on a formatted key both maps have. Two keys of one map that format alike
   * ("x" and "--x") are resolved by Go's random iteration order, so the contract only says
   * the value comes from one of them.
   */
  method Merge(opts: Options, other: Options) returns (r: Options)
    ensures r.Options?
    ensures forall f :: f in r.entries <==>
      Covers(opts.Entries().Keys, f) || Covers(other.Entries().Keys, f)
    ensures forall f :: f in r.entries && Covers(other.Entries().Keys, f) ==>
      ValueFrom(other.Entries(), other.Entries().Keys, f, r.entries[f])
    ensures forall f :: f in r.entries && !Covers(other.Entries().Keys, f) ==>
      ValueFrom(opts.Entries(), opts.Entries().Keys, f, r.entries[f])
  {
    var a := opts.Entries();
    var b := other.Entries();
    var result: map<string, Value> := map[];
    var rest := a.Keys;
    while rest != {}
      invariant rest <= a.Keys
      invariant FirstPass(a, a.Keys - rest, result)
      decreases rest
    {
      var k :| k in rest;
      FirstPassStep(a, a.Keys - rest, k, result);
      assert (a.Keys - rest) + {k} == a.Keys - (rest - {k});
      result := result[FormatFlag(k) := a[k]];
      rest := rest - {k};
    }
    assert a.Keys - rest == a.Keys;
    rest := b.Keys;
    assert b.Keys - rest == {};
    while rest != {}
      invariant rest <= b.Keys
      invariant SecondPass(a, b, b.Keys - rest, result)
      decreases rest
    {
      var k :| k in rest;
      SecondPassStep(a, b, b.Keys - rest, k, result);
      assert (b.Keys - rest) + {k} == b.Keys - (rest - {k});
      result := result[FormatFlag(k) := b[k]];
      rest := rest - {k};
    }
    assert b.Keys - rest == b.Keys;
    r := Options(result);
  }
}
