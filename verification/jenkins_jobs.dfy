/**
 Selection of the newest CI job per platform bucket, as the release script
 publish/get_latest_version_of_our_test_jenkins_jobs.py does it over the job names the
 job server lists. Each bucket holds a retained job name and two counters (in the script,
 three single-element lists); a name routed to the bucket advances the major counter
 whenever its major is at least the stored one, and replaces the retained job only when
 its minor is also at least the stored minor. The minor counter is never reset.
 */
module JenkinsJobs {
  import opened Wrappers
  import opened Strings

  /** The three buckets, in the order the script prints them. */
  datatype Bucket = K8s | X86Ocp | ZOcp

  /** The lower-cased substring tests that route a job name to a bucket. */
  predicate Routes(b: Bucket, name: string) {
    var n := ToLower(name);
    && !Contains(n, "deprecated")
    && match b
       case K8s => Contains(n, "staging_svc") && Contains(n, "k8s")
       case X86Ocp => Contains(n, "production_rhel_svc") && Contains(n, "ocp")
       case ZOcp => Contains(n, "production_z") && Contains(n, "svc")
  }

  /** `int(name.split(".")[0][-1])`: the digit that ends the first `.`-segment; None when
      the segment is empty (IndexError) or that character is not a digit (ValueError). On
      one character int() reads nothing but a digit (PyIntOneChar). */
  function Major(name: string): Option<nat> {
    var first := Split(name, '.')[0];
    if |first| == 0 then None else ParseNat(first[|first| - 1..])
  }

  /** `int(name.split(".")[1])`: the second `.`-segment as Python reads a number, sign,
      padding and underscores included; None when there is no second segment (IndexError)
      or int() rejects it (ValueError). */
  function Minor(name: string): Option<int> {
    var parts := Split(name, '.');
    if |parts| < 2 then None else PyInt(parts[1])
  }

  /** The state of one bucket: the retained job and the two counters. */
  datatype Record = Record(job: string, major: int, minor: int)

  /** Every bucket starts as `""` with both counters at 0. */
  const Start := Record("", 0, 0)

  /** get_list_of_latest_jobs on values; None when the script raises. The minor is parsed
      only when the major is at least the stored one, so a name without a second segment
      goes through unharmed when its major is smaller. */
  function Next(r: Record, name: string): Option<Record> {
    match Major(name)
    case None => None
    case Some(major) =>
      if major < r.major then Some(r)
      else
        match Minor(name)
        case None => None
        case Some(minor) =>
          if minor >= r.minor then Some(Record(name, major, minor))
          else Some(r.(major := major))
  }

  /** The names routed to bucket `b`, in their order. */
  function Routed(b: Bucket, names: seq<string>): (routed: seq<string>)
    ensures |routed| <= |names|
    decreases |names|
  {
    if |names| == 0 then []
    else
      var name := names[|names| - 1];
      Routed(b, names[..|names| - 1]) + if Routes(b, name) then [name] else []
  }

  /** The record after get_list_of_latest_jobs has been applied to each of `jobs` in turn;
      None when it raised on one of them. */
  function Tracked(jobs: seq<string>): Option<Record>
    decreases |jobs|
  {
    if |jobs| == 0 then Some(Start)
    else
      match Tracked(jobs[..|jobs| - 1])
      case None => None
      case Some(r) => Next(r, jobs[|jobs| - 1])
  }

  /** One bucket after the loop has seen `names`; None when the script raised on one of them. */
  function Fold(b: Bucket, names: seq<string>): Option<Record> {
    Tracked(Routed(b, names))
  }

  /** The three lines get_the_desired_jobs prints, or None when it raises. The buckets are
      independent `if`s, and any raise aborts the whole run. */
  function Printed(names: seq<string>): Option<seq<string>> {
    match (Fold(K8s, names), Fold(X86Ocp, names), Fold(ZOcp, names))
    case (Some(k), Some(x), Some(z)) => Some([k.job, x.job, z.job])
    case _ => None
  }

  /** The three single-element lists of one bucket, updated in place. */
  class Latest {
    var job: string
    var major: int
    var minor: int

    constructor ()
      ensures job == "" && major == 0 && minor == 0
    {
      job, major, minor := "", 0, 0;
    }

    function Value(): Record
      reads this
    {
      Record(job, major, minor)
    }

    /** get_list_of_latest_jobs(latest_job, latest_major_version, latest_minor_version, name);
        `ok` is false when it raises, the major counter having been written already when the
        raise comes from the minor. */
    method Update(name: string) returns (ok: bool)
      modifies this
      ensures ok <==> Next(old(Value()), name).Some?
      ensures ok ==> Value() == Next(old(Value()), name).value
      ensures !ok ==> job == old(job) && minor == old(minor)
      ensures !ok ==> major == if Major(name).Some? && Major(name).value >= old(major)
                               then Major(name).value else old(major)
    {
      var parts := Split(name, '.');
      var first := parts[0];
      if |first| == 0 {
        return false;
      }
      var m := ParseNat(first[|first| - 1..]);
      if m.None? {
        return false;
      }
      if m.value >= major {
        major := m.value;
        if |parts| < 2 {
          return false;
        }
        var n := PyInt(parts[1]);
        if n.None? {
          return false;
        }
        if n.value >= minor {
          minor := n.value;
          job := name;
        }
      }
      ok := true;
    }
  }

  /** One more name: the bucket takes one more step exactly when the name is routed to it. */
  lemma FoldStep(b: Bucket, names: seq<string>, i: nat)
    requires i < |names|
    ensures Fold(b, names[..i + 1]) ==
            if !Routes(b, names[i]) then Fold(b, names[..i])
            else match Fold(b, names[..i])
                 case None => None
                 case Some(r) => Next(r, names[i])
  {
    var prefix := names[..i + 1];
    assert prefix[..i] == names[..i] && prefix[i] == names[i];
    var routed := Routed(b, names[..i]);
    if Routes(b, names[i]) {
      assert Routed(b, prefix) == routed + [names[i]];
      assert (routed + [names[i]])[..|routed|] == routed;
    } else {
      assert Routed(b, prefix) == routed;
    }
  }

  /** A raise on a prefix of the names is a raise on all of them. */
  lemma {:induction false} FoldNoneSticks(b: Bucket, names: seq<string>, j: nat)
    requires j <= |names|
    requires Fold(b, names[..j]).None?
    ensures Fold(b, names).None?
    decreases |names| - j
  {
    if j < |names| {
      var init := names[..|names| - 1];
      assert init[..j] == names[..j];
      FoldNoneSticks(b, init, j);
      FoldStep(b, names, |names| - 1);
      assert names[..|names|] == names;
    } else {
      assert names[..j] == names;
    }
  }

  /** Without a raise, the three retained jobs are printed in bucket order. */
  lemma PrintedAll(names: seq<string>, k: Record, x: Record, z: Record)
    requires Fold(K8s, names) == Some(k) && Fold(X86Ocp, names) == Some(x) && Fold(ZOcp, names) == Some(z)
    ensures Printed(names) == Some([k.job, x.job, z.job])
  {
  }

  /** The i-th name handed to one bucket's record, which takes it when the name is routed
      there; a raise is a raise of the whole run. */
  method Feed(b: Bucket, latest: Latest, names: seq<string>, i: nat) returns (ok: bool)
    requires i < |names|
    requires Fold(b, names[..i]) == Some(latest.Value())
    modifies latest
    ensures ok ==> Fold(b, names[..i + 1]) == Some(latest.Value())
    ensures !ok ==> Printed(names).None?
  {
    FoldStep(b, names, i);
    ok := true;
    if Routes(b, names[i]) {
      ok := latest.Update(names[i]);
      if !ok {
        FoldNoneSticks(b, names, i + 1);
        assert Printed(names).None?;
      }
    }
  }

  /** get_the_desired_jobs(jobs) over the job names: the lines it prints, or None when it raises. */
  method GetTheDesiredJobs(names: seq<string>) returns (lines: Option<seq<string>>)
    ensures lines == Printed(names)
  {
    var k8s := new Latest();
    var x86 := new Latest();
    var z := new Latest();
    var i := 0;
    while i < |names|
      invariant 0 <= i <= |names|
      invariant Fold(K8s, names[..i]) == Some(k8s.Value())
      invariant Fold(X86Ocp, names[..i]) == Some(x86.Value())
      invariant Fold(ZOcp, names[..i]) == Some(z.Value())
    {
      var ok := Feed(K8s, k8s, names, i);
      if !ok {
        return None;
      }
      ok := Feed(X86Ocp, x86, names, i);
      if !ok {
        return None;
      }
      ok := Feed(ZOcp, z, names, i);
      if !ok {
        return None;
      }
      i := i + 1;
    }
    assert names[..i] == names;
    PrintedAll(names, k8s.Value(), x86.Value(), z.Value());
    lines := Some([k8s.job, x86.job, z.job]);
  }


  /** A name whose major is below the stored one leaves the job and both counters as they are. */
  lemma SmallerMajorKeeps(r: Record, name: string)
    requires Major(name).Some? && Major(name).value < r.major
    ensures Next(r, name) == Some(r)
  {
  }

  /** One step never lowers a counter; the job is replaced exactly when the major and the
      minor are both at least the stored ones, and otherwise the job and the minor stay as
      they were, even when the major advances. */
  lemma NextReplacesOnlyWhenBothAtLeast(r: Record, name: string)
    requires Next(r, name).Some?
    ensures Next(r, name).value.major >= r.major && Next(r, name).value.minor >= r.minor
    ensures Major(name).value >= r.major && Minor(name).Some? && Minor(name).value >= r.minor
            ==> Next(r, name) == Some(Record(name, Major(name).value, Minor(name).value))
    ensures !(Major(name).value >= r.major && Minor(name).Some? && Minor(name).value >= r.minor)
            ==> Next(r, name).value.job == r.job && Next(r, name).value.minor == r.minor
  {
  }

  /** On an exact tie with the stored version the later name wins. */
  lemma TieLaterWins(r: Record, name: string)
    requires Major(name).Some? && Major(name).value == r.major
    requires Minor(name).Some? && Minor(name).value == r.minor
    ensures Next(r, name) == Some(Record(name, r.major, r.minor))
  {
  }

  /** The names routed to a bucket are exactly the names that pass its tests. */
  lemma {:induction false} RoutedMembers(b: Bucket, names: seq<string>)
    ensures forall name :: name in Routed(b, names) <==> name in names && Routes(b, name)
    decreases |names|
  {
    if |names| > 0 {
      var init := names[..|names| - 1];
      RoutedMembers(b, init);
      assert names == init + [names[|names| - 1]];
    }
  }

  /** A step that does not raise leaves the larger of the stored major and the name's. */
  lemma NextMajor(r: Record, name: string)
    requires Next(r, name).Some?
    ensures Major(name).Some?
    ensures Next(r, name).value.major == if Major(name).value >= r.major then Major(name).value else r.major
  {
  }

  /** After a bucket has seen its jobs, its major is the largest major among them, and 0
      when there were none. */
  lemma {:induction false} TrackedMajorIsMax(jobs: seq<string>)
    requires Tracked(jobs).Some?
    ensures Tracked(jobs).value.major >= 0
    ensures forall k :: 0 <= k < |jobs| ==>
              Major(jobs[k]).Some? && Major(jobs[k]).value <= Tracked(jobs).value.major
    ensures Tracked(jobs).value.major == 0 ||
            exists k :: 0 <= k < |jobs| && Major(jobs[k]).Some? &&
                        Major(jobs[k]).value == Tracked(jobs).value.major
    decreases |jobs|
  {
    if |jobs| > 0 {
      var init := jobs[..|jobs| - 1];
      TrackedMajorIsMax(init);
      assert forall k :: 0 <= k < |init| ==> jobs[k] == init[k];
      var r, r' := Tracked(init).value, Tracked(jobs).value;
      NextMajor(r, jobs[|jobs| - 1]);
      if r'.major != 0 && r'.major == r.major {
        var k :| 0 <= k < |init| && Major(init[k]).Some? && Major(init[k]).value == r.major;
        assert jobs[k] == init[k];
      }
    }
  }

  /** The stored minor never drops below 0. The retained job stays "" while no name has
      been taken, with the minor still 0, and with no names at all; a first name with a
      non-negative minor is always taken, and a taken job is never given back. A retained
      job is one of the names, carrying the stored minor and a major at most the stored
      major. */
  lemma {:induction false} TrackedRetainsAJob(jobs: seq<string>)
    requires Tracked(jobs).Some?
    ensures Tracked(jobs).value.minor >= 0
    ensures |jobs| == 0 ==> Tracked(jobs).value.job == ""
    ensures Tracked(jobs).value.job == "" ==> Tracked(jobs).value.minor == 0
    ensures |jobs| > 0 && Minor(jobs[0]).Some? && Minor(jobs[0]).value >= 0 ==> Tracked(jobs).value.job != ""
    ensures Tracked(jobs).value.job != "" ==>
              && Tracked(jobs).value.job in jobs
              && Minor(Tracked(jobs).value.job).Some?
              && Minor(Tracked(jobs).value.job).value == Tracked(jobs).value.minor
              && Major(Tracked(jobs).value.job).Some?
              && Major(Tracked(jobs).value.job).value <= Tracked(jobs).value.major
    decreases |jobs|
  {
    if |jobs| > 0 {
      var init := jobs[..|jobs| - 1];
      TrackedRetainsAJob(init);
      TrackedMajorIsMax(init);
      var last := jobs[|jobs| - 1];
      var r, r' := Tracked(init).value, Tracked(jobs).value;
      assert last != "";
      if |init| == 0 {
        assert r == Start && last == jobs[0];
      } else {
        assert init[0] == jobs[0];
      }
      if r'.job != last {
        assert r'.job == r.job && r'.minor == r.minor;
      }
    }
  }

  /** When every name's minor is missing or negative, no name is ever taken. */
  lemma NegativeMinorsTakeNothing(jobs: seq<string>)
    requires Tracked(jobs).Some?
    requires forall k :: 0 <= k < |jobs| ==> Minor(jobs[k]).None? || Minor(jobs[k]).value < 0
    ensures Tracked(jobs).value.job == ""
  {
    TrackedRetainsAJob(jobs);
  }

  /** The job a bucket prints is "" when no name is routed to it, and is not "" when the
      first name routed to it has a non-negative minor; a printed job is a listed name that
      passes the bucket's tests, hence never a deprecated one. */
  lemma FoldSelectsRoutedName(b: Bucket, names: seq<string>)
    requires Fold(b, names).Some?
    ensures (forall name :: name in names ==> !Routes(b, name)) ==> Fold(b, names).value.job == ""
    ensures var routed := Routed(b, names);
            |routed| > 0 && Minor(routed[0]).Some? && Minor(routed[0]).value >= 0 ==> Fold(b, names).value.job != ""
    ensures Fold(b, names).value.job != "" ==>
              Fold(b, names).value.job in names && Routes(b, Fold(b, names).value.job)
    ensures !Contains(ToLower(Fold(b, names).value.job), "deprecated")
  {
    RoutedMembers(b, names);
    var routed := Routed(b, names);
    TrackedRetainsAJob(routed);
    if |routed| > 0 {
      assert routed[0] in routed;
    }
    var job := Fold(b, names).value.job;
    if job == "" {
      MissingCharNotContained(ToLower(job), "deprecated", 'd');
    }
  }

  /** With no job at all, the script prints three empty lines. */
  lemma NoJobsPrintsEmptyLines()
    ensures Printed([]) == Some(["", "", ""])
  {
  }

  /** Helper for the examples: a name that starts `staging_svc_k8s` and has no capital and
      no `e` goes to the k8s bucket. */
  lemma K8sRoute(n: string)
    requires |n| >= 15 && n[..15] == "staging_svc_k8s"
    requires forall k :: 0 <= k < |n| ==> !('A' <= n[k] <= 'Z') && n[k] != 'e'
    ensures Routes(K8s, n)
  {
    ToLowerNoCapitals(n);
    assert n[0..11] == n[..15][0..11];
    assert OccursAt(n, "staging_svc", 0);
    assert n[12..15] == n[..15][12..15];
    assert OccursAt(n, "k8s", 12);
    MissingCharNotContained(n, "deprecated", 'e');
  }

  /** Helper for the examples: `<p><major>.<minor>`, with `p` free of dots, carries that
      one-digit version. */
  lemma Version(p: string, major: char, minor: char)
    requires '.' !in p && IsDigit(major) && IsDigit(minor)
    ensures Major(p + [major, '.', minor]) == Some(major as int - '0' as int)
    ensures Minor(p + [major, '.', minor]) == Some(minor as int - '0' as int)
  {
    assert p + [major, '.', minor] == (p + [major]) + ['.'] + [minor];
    SplitAtOne(p + [major], [minor], '.');
    assert (p + [major])[|p + [major]| - 1..] == [major];
    assert [major][..0] == [] && [minor][..0] == [];
    assert DigitsValue([major]) == major as int - '0' as int;
    assert DigitsValue([minor]) == minor as int - '0' as int;
    PyIntOneChar(minor);
  }

  /** A platform prefix of the k8s bucket: it starts `staging_svc_k8s` and has no
      capital, no `e` and no dot. */
  predicate K8sPlatform(p: string) {
    && |p| >= 15 && p[..15] == "staging_svc_k8s"
    && forall k :: 0 <= k < |p| ==> !('A' <= p[k] <= 'Z') && p[k] != 'e' && p[k] != '.'
  }

  /** Names written `<platform>.<major>.<minor>`, the major in a segment of its own, make the
      script raise when they reach a bucket: the first segment does not end in a digit. */
  lemma DottedMajorRaises(p: string, r: Record)
    requires K8sPlatform(p) && !IsDigit(p[|p| - 1])
    ensures Routes(K8s, p + ['.', '3', '.', '2'])
    ensures Next(r, p + ['.', '3', '.', '2']) == None
  {
    var n := p + ['.', '3', '.', '2'];
    assert n[..15] == p[..15];
    K8sRoute(n);
    assert n[|p|] == '.' && forall k :: 0 <= k < |p| ==> n[k] == p[k];
    assert IndexOf(n, '.') == |p|;
    assert Split(n, '.')[0] == p;
  }

  /** int() reads a signed minor, so `<p>4.-1` does not raise: the major advances to 4 and,
      -1 being below the stored minor, the job and the minor stay as they were. */
  lemma SignedMinorContinues(p: string)
    requires K8sPlatform(p)
    ensures Routes(K8s, p + ['4', '.', '-', '1'])
    ensures Next(Start, p + ['4', '.', '-', '1']) == Some(Record("", 4, 0))
  {
    var n := p + ['4', '.', '-', '1'];
    assert n[..15] == p[..15];
    K8sRoute(n);
    assert n == (p + ['4']) + ['.'] + ['-', '1'];
    SplitAtOne(p + ['4'], ['-', '1'], '.');
    assert (p + ['4'])[|p + ['4']| - 1..] == ['4'];
    PyIntOneChar('4');
    assert AllDigits("1") && DigitsValue("1") == 1;
    PyIntSigned("1");
    assert "-" + "1" == ['-', '1'];
  }

  /** The quirk: a higher major with a smaller minor advances the major counter but keeps
      the older job, so after 3.5 the newer 4.2 is not selected. */
  lemma QuirkKeepsOlderJob(p: string)
    requires K8sPlatform(p)
    ensures var a := p + ['3', '.', '5'];
            Fold(K8s, [a, p + ['4', '.', '2']]) == Some(Record(a, 4, 5))
  {
    var a := p + ['3', '.', '5'];
    var c := p + ['4', '.', '2'];
    assert a[..15] == p[..15] && c[..15] == p[..15];
    K8sRoute(a);
    K8sRoute(c);
    Version(p, '3', '5');
    Version(p, '4', '2');
    assert [a, c][..1] == [a] && [a][..0] == [];
    assert Routed(K8s, [a, c]) == [a, c];
    assert Tracked([a]) == Some(Record(a, 3, 5));
  }

  /** The update the script evidently intends: keep the name with the lexicographically
      greatest (major, minor), the later name winning a tie; the first name is always
      taken, whatever its version. */
  function LexNext(r: Record, name: string): Option<Record> {
    match (Major(name), Minor(name))
    case (Some(major), Some(minor)) =>
      if r.job == "" || major > r.major || (major == r.major && minor >= r.minor)
      then Some(Record(name, major, minor)) else Some(r)
    case _ => None
  }

  function LexTracked(jobs: seq<string>): Option<Record>
    decreases |jobs|
  {
    if |jobs| == 0 then Some(Start)
    else
      match LexTracked(jobs[..|jobs| - 1])
      case None => None
      case Some(r) => LexNext(r, jobs[|jobs| - 1])
  }

  /** (major, minor) is at most (major', minor') in lexicographic order. */
  predicate LexAtMost(major: int, minor: int, major': int, minor': int) {
    major < major' || (major == major' && minor <= minor')
  }

  /** With the intended update, the retained job carries the lexicographically greatest
      version among the bucket's jobs, and the counters are that job's own version. */
  lemma {:induction false} LexTrackedIsMax(jobs: seq<string>)
    requires LexTracked(jobs).Some?
    ensures forall k :: 0 <= k < |jobs| ==>
              Major(jobs[k]).Some? && Minor(jobs[k]).Some? &&
              LexAtMost(Major(jobs[k]).value, Minor(jobs[k]).value,
                        LexTracked(jobs).value.major, LexTracked(jobs).value.minor)
    ensures |jobs| == 0 ==> LexTracked(jobs) == Some(Start)
    ensures |jobs| > 0 ==>
              && LexTracked(jobs).value.job in jobs
              && Major(LexTracked(jobs).value.job).Some?
              && Major(LexTracked(jobs).value.job).value == LexTracked(jobs).value.major
              && Minor(LexTracked(jobs).value.job).Some?
              && Minor(LexTracked(jobs).value.job).value == LexTracked(jobs).value.minor
    decreases |jobs|
  {
    if |jobs| > 0 {
      var init := jobs[..|jobs| - 1];
      LexTrackedIsMax(init);
      assert forall k :: 0 <= k < |init| ==> jobs[k] == init[k];
      var r, r' := LexTracked(init).value, LexTracked(jobs).value;
      if r'.job != jobs[|jobs| - 1] {
        assert r' == r;
        if |init| == 0 {
          assert false;
        }
      }
    }
  }

  /** On the quirk's example the intended update selects the newest version. */
  lemma LexSelectsNewest(p: string, a: string, c: string)
    requires p == "staging_svc_k8s_"
    requires a == p + ['3', '.', '5'] && c == p + ['4', '.', '2']
    ensures LexTracked([a, c]) == Some(Record(c, 4, 2))
  {
    Version(p, '3', '5');
    Version(p, '4', '2');
    assert [a][..0] == [];
    assert LexTracked([a]) == Some(Record(a, 3, 5));
    assert [a, c][..1] == [a];
  }
}
