/**
 * internal/dto/config.go and internal/dto/jobs.go: the configuration as decoded from YAML, and
 * the decoding of the job list, which dispatches each element on its `type` tag. The YAML
 * decoder itself is outside the model: it is the functions of a `Decoder`.
 */
module Dto {
  import opened Wrappers
  import opened Entity

  datatype Hooks = Hooks(before: seq<string>, failure: seq<string>, success: seq<string>)

  datatype BackupJob = BackupJob(
    name: string,
    cron: string,
    ignoreMissingXAttrsError: bool,
    from: seq<string>,
    to: string,                 // a repository name
    options: Options,
    hooks: Hooks,
    healthcheckUrl: string)

  datatype CopyJob = CopyJob(
    name: string,
    cron: string,
    from: string,               // a repository name
    to: string,                 // a repository name
    options: Options,
    hooks: Hooks,
    healthcheckUrl: string)

  /** The dynamic `Job` value: only the two variants the decoder produces. */
  datatype Job = Backup(b: BackupJob) | Copy(c: CopyJob)

  datatype Repository = Repository(path: string, passwordCmd: string, forgetOptions: Options)

  datatype Config = Config(
    repositories: map<string, Repository>,
    jobs: seq<Job>,
    healthcheckUrl: string)

  /** The kinds of a yaml.v3 node. */
  datatype NodeKind = DocumentNode | SequenceNode | MappingNode | ScalarNode | AliasNode

  datatype Node = Node(kind: NodeKind, content: seq<Node>, text: string)

  /**
   * Node.Decode into the three targets the job decoding uses: the `type` field alone, a
   * backup job, and a copy job.
   */
  datatype Decoder = Decoder(
    jobType: Node -> Result<string, string>,
    backup: Node -> Result<BackupJob, string>,
    copy: Node -> Result<CopyJob, string>)

  /** `%q` of Go's fmt for the characters that need a backslash: '"' and '\'. */
  function Quote(s: string): (r: string)
    ensures |r| >= 2 && r[0] == '"' && r[|r| - 1] == '"'
    ensures |r| >= |s| + 2
  {
    "\"" + QuoteBody(s) + "\""
  }

  function QuoteBody(s: string): (r: string)
    ensures |r| >= |s|
    ensures forall i :: 0 <= i < |r| && r[i] == '"' ==> i > 0 && r[i - 1] == '\\'
  {
    if s == [] then ""
    else
      var head := if s[0] == '"' || s[0] == '\\' then ['\\', s[0]] else [s[0]];
      var rest := QuoteBody(s[1..]);
      assert forall i :: |head| <= i < |head + rest| ==> (head + rest)[i] == rest[i - |head|];
      head + rest
  }

  /** Reading the quoted text back: every backslash escapes the character after it. */
  function Unquote(r: string): string {
    if r == [] then ""
    else if r[0] == '\\' && |r| >= 2 then [r[1]] + Unquote(r[2..])
    else [r[0]] + Unquote(r[1..])
  }

  /** The quoting loses nothing: the job type named in an error is the one that was read. */
  lemma {:induction false} QuoteRoundTrip(s: string)
    ensures Unquote(QuoteBody(s)) == s
  {
    if s != [] {
      QuoteRoundTrip(s[1..]);
      var rest := QuoteBody(s[1..]);
      if s[0] == '"' || s[0] == '\\' {
        assert (['\\', s[0]] + rest)[2..] == rest;
      } else {
        assert ([s[0]] + rest)[1..] == rest;
      }
    }
  }

  /**
   * jobWrapper.UnmarshalYAML: read the `type` tag, then decode the node as the job it
   * names; each failure is wrapped with the step that failed, and a tag other than
   * "backup" or "copy" is refused.
   */
  function DecodeJob(d: Decoder, n: Node): (r: Result<Job, string>)
    ensures d.jobType(n).Failure? ==> r == Failure("job type: " + d.jobType(n).error)
    ensures r.Success? ==> d.jobType(n).Success?
    ensures r.Success? && r.value.Backup? ==> d.jobType(n).value == "backup" && d.backup(n) == Result.Success(r.value.b)
    ensures r.Success? && r.value.Copy? ==> d.jobType(n).value == "copy" && d.copy(n) == Result.Success(r.value.c)
    ensures d.jobType(n).Success? && d.jobType(n).value != "backup" && d.jobType(n).value != "copy" ==>
      r == Failure("unknown job type: " + Quote(d.jobType(n).value))
    ensures d.jobType(n) == Success("backup") ==>
      (r.Success? <==> d.backup(n).Success?) && (d.backup(n).Failure? ==> r.error == "backup: " + d.backup(n).error)
    ensures d.jobType(n) == Success("copy") ==>
      (r.Success? <==> d.copy(n).Success?) && (d.copy(n).Failure? ==> r.error == "copy: " + d.copy(n).error)
  {
    match d.jobType(n)
    case Failure(e) => Failure("job type: " + e)
    case Success(t) =>
      if t == "backup" then
        match d.backup(n)
        case Failure(e) => Failure("backup: " + e)
        case Success(b) => Result.Success(Backup(b))
      else if t == "copy" then
        match d.copy(n)
        case Failure(e) => Failure("copy: " + e)
        case Success(c) => Result.Success(Copy(c))
      else Failure("unknown job type: " + Quote(t))
  }

  /** The elements decoded in order, stopping at the first that fails. */
  function DecodeAll(d: Decoder, items: seq<Node>): Result<seq<Job>, string>
    decreases |items|
  {
    if items == [] then Result.Success([])
    else
      match DecodeJob(d, items[0])
      case Failure(e) => Failure("unmarshal job: " + e)
      case Success(j) =>
        match DecodeAll(d, items[1..])
        case Failure(e) => Failure(e)
        case Success(js) => Result.Success([j] + js)
  }

  /**
   * Decoding the list yields either the whole list, one job per element and in order, or
   * the error of the first element that fails, wrapped as "unmarshal job: ".
   */
  lemma {:induction false} DecodeAllResult(d: Decoder, items: seq<Node>)
    ensures var r := DecodeAll(d, items);
      r.Success? ==>
        (|r.value| == |items|
         && forall i :: 0 <= i < |items| ==> DecodeJob(d, items[i]) == Result.Success(r.value[i]))
    ensures var r := DecodeAll(d, items);
      r.Failure? ==>
        (exists k :: 0 <= k < |items|
           && (forall i :: 0 <= i < k ==> DecodeJob(d, items[i]).Success?)
           && DecodeJob(d, items[k]).Failure?
           && r.error == "unmarshal job: " + DecodeJob(d, items[k]).error)
    decreases |items|
  {
    if items != [] && DecodeJob(d, items[0]).Success? {
      DecodeAllResult(d, items[1..]);
      var tail := DecodeAll(d, items[1..]);
      if tail.Success? {
        assert forall i :: 1 <= i < |items| ==> items[i] == items[1..][i - 1];
      } else {
        var k :| 0 <= k < |items[1..]|
          && (forall i :: 0 <= i < k ==> DecodeJob(d, items[1..][i]).Success?)
          && DecodeJob(d, items[1..][k]).Failure?
          && tail.error == "unmarshal job: " + DecodeJob(d, items[1..][k]).error;
        forall i | 0 <= i < k + 1
          ensures DecodeJob(d, items[i]).Success?
        {
          if i > 0 { assert items[i] == items[1..][i - 1]; }
        }
        assert items[k + 1] == items[1..][k];
      }
    }
  }

  /**
   * Jobs.UnmarshalYAML: a node that is not a sequence is refused; otherwise the elements
   * are decoded one by one, and the list is handed out only when every element decoded.
   */
  method UnmarshalJobs(d: Decoder, n: Node) returns (r: Result<seq<Job>, string>)
    ensures n.kind != SequenceNode ==> r == Failure("jobs must be a sequence")
    ensures n.kind == SequenceNode ==> r == DecodeAll(d, n.content)
  {
    if n.kind != SequenceNode {
      return Failure("jobs must be a sequence");
    }
    var out: seq<Job> := [];
    var i := 0;
    assert n.content[0..] == n.content;
    assert DecodeAll(d, n.content).Success? ==> out + DecodeAll(d, n.content).value == DecodeAll(d, n.content).value;
    while i < |n.content|
      invariant 0 <= i <= |n.content|
      invariant DecodeAll(d, n.content[i..]).Success? ==>
        DecodeAll(d, n.content) == Result.Success(out + DecodeAll(d, n.content[i..]).value)
      invariant DecodeAll(d, n.content[i..]).Failure? ==>
        DecodeAll(d, n.content) == DecodeAll(d, n.content[i..])
    {
      var w := DecodeJob(d, n.content[i]);
      assert n.content[i..][1..] == n.content[i + 1..];
      if w.Failure? {
        assert DecodeAll(d, n.content[i..]) == Failure("unmarshal job: " + w.error);
        return Failure("unmarshal job: " + w.error);
      }
      var tail := DecodeAll(d, n.content[i + 1..]);
      if tail.Success? {
        assert DecodeAll(d, n.content[i..]) == Result.Success([w.value] + tail.value);
        assert out + ([w.value] + tail.value) == (out + [w.value]) + tail.value;
      }
      out := out + [w.value];
      i := i + 1;
    }
    assert n.content[i..] == [];
    assert DecodeAll(d, n.content[i..]) == Result.Success([]);
    assert out + [] == out;
    r := Result.Success(out);
  }
}
