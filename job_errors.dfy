/**
 * internal/cases/backup/job_errors.go: the error the backup handler returns for a batch,
 * a map from job name to that job's error in which the last write for a name wins.
 */
module JobErrors {
  import opened Strings
  import opened Seqs

  /** One job's segment of the message: "<job> failed: <err>". */
  function Segment(job: string, err: string): (r: string)
    ensures HasPrefix(r, job)
    ensures r != ""
    ensures |r| >= |err| && r[|r| - |err|..] == err
  {
    job + " failed: " + err
  }

  /** The segments of the jobs in `errors`, visited in `order` (Go's map iteration order). */
  function Segments(errors: map<string, string>, order: seq<string>): seq<string> {
    FlatMap((job: string) => if job in errors then [Segment(job, errors[job])] else [], order)
  }

  /** The text of Error() when the map is iterated in `order`. */
  function Render(errors: map<string, string>, order: seq<string>): string {
    Join(Segments(errors, order), ";\n")
  }

  /** Under an enumeration of the keys there is one segment per recorded job, and only those. */
  lemma {:induction false} SegmentsOfEnumeration(errors: map<string, string>, order: seq<string>)
    requires forall j :: j in order ==> j in errors
    ensures |Segments(errors, order)| == |order|
    ensures forall i :: 0 <= i < |order| ==>
      Segments(errors, order)[i] == Segment(order[i], errors[order[i]])
    decreases |order|
  {
    if order != [] {
      assert order[0] in order;
      forall j | j in order[1..] ensures j in errors {
        assert j in order;
      }
      SegmentsOfEnumeration(errors, order[1..]);
    }
  }

  /** The message is empty exactly when no job is recorded. */
  lemma RenderEmpty(errors: map<string, string>, order: seq<string>)
    requires IsEnumeration(order, errors.Keys)
    ensures Render(errors, order) == "" <==> errors == map[]
  {
    SegmentsOfEnumeration(errors, order);
    JoinEmpty(Segments(errors, order), ";\n");
    if errors != map[] {
      var j :| j in errors;
      assert j in order;
    } else {
      HeadMember(order);
    }
  }

  /** The segments are fixed up to order: two iteration orders give the same multiset. */
  lemma SegmentsOrderIndependent(errors: map<string, string>, o1: seq<string>, o2: seq<string>)
    requires IsEnumeration(o1, errors.Keys) && IsEnumeration(o2, errors.Keys)
    ensures multiset(Segments(errors, o1)) == multiset(Segments(errors, o2))
  {
    FlatMapPermutation((job: string) => if job in errors then [Segment(job, errors[job])] else [], o1, o2);
  }

  class JobListError {
    var errors: map<string, string>

    /** newJobErrors: no job recorded. */
    constructor ()
      ensures errors == map[]
    {
      errors := map[];
    }

    /** Add records `err` for `job`, replacing any earlier entry for it; other jobs keep theirs. */
    method Add(job: string, err: string)
      modifies this
      ensures errors == old(errors)[job := err]
      ensures forall j :: j in old(errors) && j != job ==> j in errors && errors[j] == old(errors)[j]
    {
      errors := errors[job := err];
    }

    function HasErrors(): (b: bool)
      reads this
      ensures b <==> exists j :: j in errors
    {
      |errors| > 0
    }

    /** Error(), with the map iterated in `order`; empty exactly when nothing is recorded. */
    function Error(order: seq<string>): (s: string)
      reads this
      requires IsEnumeration(order, errors.Keys)
      ensures s == "" <==> !HasErrors()
    {
      RenderEmpty(errors, order);
      Render(errors, order)
    }
  }
}
