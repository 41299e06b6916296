/** The job validator of the timeout linter (`validate` in src/index.ts): every
    job that runs steps itself, rather than delegating to a reusable workflow
    through `uses`, must declare a numeric `timeout-minutes`. */
module Validator {
  import opened YamlValue
  import Text

  /** Why a job breaks the rule ('not defined' | 'not a number'). */
  datatype Reason = NotDefined | NotANumber

  /** One violation: the job's key, its `name` property as read, and the reason. */
  datatype JobResult = JobResult(jobId: string, name: Field, reason: Reason)

  const UsesKey := "uses"
  const NameKey := "name"
  const TimeoutKey := "timeout-minutes"

  /** The rule applied to one job value: None when the job is falsy, delegates
      through a truthy `uses`, or has a number under `timeout-minutes`. */
  function Check(job: Value): (r: Option<Reason>)
    ensures r == None <==>
      !Truthy(job) || FieldTruthy(GetField(job, UsesKey)) ||
      (GetField(job, TimeoutKey).Present? && GetField(job, TimeoutKey).value.Num?)
    ensures r == Some(NotDefined) <==>
      Truthy(job) && !FieldTruthy(GetField(job, UsesKey)) && GetField(job, TimeoutKey).Absent?
    ensures r == Some(NotANumber) <==>
      Truthy(job) && !FieldTruthy(GetField(job, UsesKey)) &&
      GetField(job, TimeoutKey).Present? && !GetField(job, TimeoutKey).value.Num?
  {
    if !Truthy(job) then None
    else if FieldTruthy(GetField(job, UsesKey)) then None
    else if GetField(job, TimeoutKey).Absent? then Some(NotDefined)
    else if !GetField(job, TimeoutKey).value.Num? then Some(NotANumber)
    else None
  }

  /** The violation one job entry contributes, if any. */
  function Violation(entry: (string, Value)): (r: Option<JobResult>)
    ensures r.None? <==> Check(entry.1).None?
    ensures r.Some? ==>
      r.value.jobId == entry.0 && r.value.name == GetField(entry.1, NameKey) &&
      Some(r.value.reason) == Check(entry.1)
  {
    match Check(entry.1)
    case None => None
    case Some(reason) => Some(JobResult(entry.0, GetField(entry.1, NameKey), reason))
  }

  /** All violations of `jobs`, in entry order. */
  function Violations(jobs: seq<(string, Value)>): (r: seq<JobResult>)
    ensures |r| <= |jobs|
  {
    if jobs == [] then []
    else
      var last := Violation(jobs[|jobs| - 1]);
      Violations(jobs[..|jobs| - 1]) + (if last.Some? then [last.value] else [])
  }

  /** The indices of the entries that produce a violation, in order. */
  function Flagged(jobs: seq<(string, Value)>): seq<nat>
  {
    if jobs == [] then []
    else Flagged(jobs[..|jobs| - 1]) + (if Check(jobs[|jobs| - 1].1).Some? then [|jobs| - 1] else [])
  }

  /** `Object.entries(jobs)` for a `jobs` value that passed the `typeof
      'object'` test: a mapping gives its entries, an array gives its
      elements keyed "0", "1", …, and null makes `Object.entries` throw (None). */
  function Entries(jobs: Value): (r: Option<seq<(string, Value)>>)
    requires jobs.Null? || jobs.Seq? || jobs.Map?
    ensures r.None? <==> jobs.Null?
    ensures jobs.Map? ==> r == Some(jobs.entries)
    ensures jobs.Seq? ==>
      (r.Some? && |r.value| == |jobs.items| &&
       forall i :: 0 <= i < |jobs.items| ==> r.value[i] == (Text.NatToString(i), jobs.items[i]))
  {
    match jobs
    case Null => None
    case Seq(items) => Some(seq(|items|, i requires 0 <= i < |items| => (Text.NatToString(i), items[i])))
    case Map(entries) => Some(entries)
  }

  /** `validate`: walks the entries in order, collecting at most one violation
      per job, and answers None rather than an empty list when there is none. */
  method Validate(jobs: seq<(string, Value)>) returns (r: Option<seq<JobResult>>)
    ensures r.None? <==> Violations(jobs) == []
    ensures r.Some? ==> r.value == Violations(jobs) && |r.value| > 0
  {
    var result: seq<JobResult> := [];
    for i := 0 to |jobs|
      invariant result == Violations(jobs[..i])
    {
      assert jobs[..i + 1][..i] == jobs[..i];
      var (jobId, job) := jobs[i];
      if !Truthy(job) {
        continue;
      }
      if FieldTruthy(GetField(job, UsesKey)) {
        continue;
      }
      var timeout := GetField(job, TimeoutKey);
      if timeout.Absent? {
        result := result + [JobResult(jobId, GetField(job, NameKey), NotDefined)];
        continue;
      }
      if !timeout.value.Num? {
        result := result + [JobResult(jobId, GetField(job, NameKey), NotANumber)];
      }
    }
    assert jobs[..|jobs|] == jobs;
    r := if |result| == 0 then None else Some(result);
  }

  /** The violations are the flagged entries, one each, in entry order: the
      result is a subsequence of the jobs, and it misses no flagged job. */
  lemma {:induction false} ViolationsFollowEntries(jobs: seq<(string, Value)>)
    ensures |Flagged(jobs)| == |Violations(jobs)|
    ensures forall k :: 0 <= k < |Flagged(jobs)| ==>
      Flagged(jobs)[k] < |jobs| && Violation(jobs[Flagged(jobs)[k]]) == Some(Violations(jobs)[k])
    ensures forall k, l :: 0 <= k < l < |Flagged(jobs)| ==> Flagged(jobs)[k] < Flagged(jobs)[l]
    ensures forall i :: 0 <= i < |jobs| && Check(jobs[i].1).Some? ==> i in Flagged(jobs)
  {
    if jobs != [] {
      var init := jobs[..|jobs| - 1];
      ViolationsFollowEntries(init);
      assert forall i :: 0 <= i < |init| ==> init[i] == jobs[i];
    }
  }

  /** No job produces more than one violation: with distinct job keys, the
      violations carry distinct job ids. */
  lemma OnePerJob(jobs: seq<(string, Value)>)
    requires DistinctKeys(jobs)
    ensures forall k, l :: 0 <= k < l < |Violations(jobs)| ==>
      Violations(jobs)[k].jobId != Violations(jobs)[l].jobId
  {
    ViolationsFollowEntries(jobs);
    var f := Flagged(jobs);
    forall k, l | 0 <= k < l < |Violations(jobs)|
      ensures Violations(jobs)[k].jobId != Violations(jobs)[l].jobId
    {
      assert Violations(jobs)[k].jobId == jobs[f[k]].0;
      assert Violations(jobs)[l].jobId == jobs[f[l]].0;
    }
  }

  /** A job is reported exactly when the rule flags it, and then with the
      reason the rule gives and the name it carries. In particular a falsy job
      or one with a truthy `uses` never appears, whatever its `timeout-minutes`. */
  lemma ReportedIff(jobs: seq<(string, Value)>, i: nat)
    requires DistinctKeys(jobs)
    requires i < |jobs|
    ensures (exists k :: 0 <= k < |Violations(jobs)| && Violations(jobs)[k].jobId == jobs[i].0)
      <==> Check(jobs[i].1).Some?
    ensures forall k :: 0 <= k < |Violations(jobs)| && Violations(jobs)[k].jobId == jobs[i].0 ==>
      Some(Violations(jobs)[k].reason) == Check(jobs[i].1) &&
      Violations(jobs)[k].name == GetField(jobs[i].1, NameKey)
  {
    ViolationsFollowEntries(jobs);
    var f := Flagged(jobs);
    forall k | 0 <= k < |Violations(jobs)| && Violations(jobs)[k].jobId == jobs[i].0
      ensures f[k] == i
    {
      assert jobs[f[k]].0 == jobs[i].0;
    }
    if Check(jobs[i].1).Some? {
      var k :| 0 <= k < |f| && f[k] == i;
      assert Violations(jobs)[k].jobId == jobs[i].0;
    }
  }

  /** A delegated or falsy job never appears among the violations. */
  lemma ExemptNeverReported(jobs: seq<(string, Value)>, i: nat)
    requires DistinctKeys(jobs)
    requires i < |jobs|
    requires !Truthy(jobs[i].1) || FieldTruthy(GetField(jobs[i].1, UsesKey))
    ensures forall r :: r in Violations(jobs) ==> r.jobId != jobs[i].0
  {
    ReportedIff(jobs, i);
    forall r | r in Violations(jobs) ensures r.jobId != jobs[i].0 {
      var k :| 0 <= k < |Violations(jobs)| && Violations(jobs)[k] == r;
    }
  }

  /** `validate` answers its null sentinel exactly when the rule flags no job. */
  lemma CleanIff(jobs: seq<(string, Value)>)
    ensures Violations(jobs) == [] <==> forall i :: 0 <= i < |jobs| ==> Check(jobs[i].1).None?
  {
    ViolationsFollowEntries(jobs);
    if Violations(jobs) != [] {
      assert Check(jobs[Flagged(jobs)[0]].1).Some?;
    }
  }

  /** An array used as `jobs` yields distinct keys, and so does a mapping. */
  lemma EntriesDistinct(jobs: Value)
    requires jobs.Null? || jobs.Seq? || jobs.Map?
    requires jobs.Map? ==> DistinctKeys(jobs.entries)
    ensures Entries(jobs).Some? ==> DistinctKeys(Entries(jobs).value)
  {
    if jobs.Seq? {
      var es := Entries(jobs).value;
      forall i, j | 0 <= i < j < |es| ensures es[i].0 != es[j].0 {
        Text.NatToStringInjective(i, j);
      }
    }
  }

  /** A job that is present but maps `timeout-minutes` to null breaks the rule
      as 'not a number': YAML null is not `undefined`. */
  lemma NullTimeoutIsNotANumber(rest: seq<(string, Value)>)
    requires forall k :: 0 <= k < |rest| ==> rest[k].0 != UsesKey && rest[k].0 != TimeoutKey
    ensures Check(Map([(TimeoutKey, Null)] + rest)) == Some(NotANumber)
  {
  }

  /** There is no range check: zero and negative timeouts comply. */
  lemma AnyNumberComplies(n: int, rest: seq<(string, Value)>)
    requires forall k :: 0 <= k < |rest| ==> rest[k].0 != UsesKey && rest[k].0 != TimeoutKey
    ensures Check(Map([(TimeoutKey, Num(n))] + rest)) == None
  {
  }
}
