/**
 * The preflight guardrail run before a DeepBranchTracer training job. Each
 * check appends issues to one list; an issue is an error when its check is
 * in the critical set and a warning otherwise, and the run is `ok` when no
 * error was raised. The file system is an input: the output path as a
 * `PathState`, every split directory as its sorted listing of case
 * directories, every case directory as its sorted listing of patch
 * directories, and every patch directory as the set of regular files in it.
 */
module Preflight {
  import opened Wrappers
  import opened Numeric
  import opened Text

  /** The `severity` field: `"error"` or `"warn"`. */
  datatype Severity = Error | Warn

  datatype Issue = Issue(severity: Severity, check: string, message: string, context: string)

  /** `_issue_level`. */
  function IssueLevel(check: string, critical: set<string>): (s: Severity)
    ensures s == Error <==> check in critical
    ensures s == Warn <==> check !in critical
  {
    if check in critical then Error else Warn
  }

  /** An issue whose severity is the one `_add_issue` gives its check. */
  predicate Leveled(i: Issue, critical: set<string>) {
    i.severity == IssueLevel(i.check, critical)
  }

  /** The `issues` list the checks append to. */
  class IssueLog {
    var issues: seq<Issue>

    constructor()
      ensures issues == []
    {
      issues := [];
    }

    /** `_add_issue`: one issue at the end, earlier issues unchanged. */
    method AddIssue(check: string, msg: string, critical: set<string>, context: string)
      modifies this
      ensures issues == old(issues) + [Issue(IssueLevel(check, critical), check, msg, context)]
      ensures |issues| == |old(issues)| + 1 && issues[..|old(issues)|] == old(issues)
      ensures Leveled(issues[|issues| - 1], critical)
    {
      issues := issues + [Issue(IssueLevel(check, critical), check, msg, context)];
    }
  }

  /** `str(n)` for an integer that may be negative. */
  function IntText(n: int): string {
    if n < 0 then "-" + Decimal(-n) else Decimal(n)
  }

  /** `sep.join(parts)`. */
  function Join(parts: seq<string>, sep: string): string
    decreases |parts|
  {
    if parts == [] then ""
    else if |parts| == 1 then parts[0]
    else parts[0] + sep + Join(parts[1..], sep)
  }

  /** `xs[:5]`. */
  function FirstFive(xs: seq<string>): seq<string> {
    xs[..Min(5, |xs|)]
  }

  // ---------------------------------------------------------------- output

  /** What the file system holds at a path. */
  datatype PathState = Absent | File | Directory(filesBelow: nat)

  /**
   * `_count_files`: 0 for a missing path, 1 for a file, the regular files below
   * a directory; a count above 0 implies the path exists, so `exists` adds
   * nothing to `file_count > 0` in the overwrite test.
   */
  function CountFiles(p: PathState): (n: nat)
    ensures n > 0 ==> p != Absent
    ensures p == File ==> n == 1
  {
    match p
    case Absent => 0
    case File => 1
    case Directory(n) => n
  }

  datatype OutputStats = OutputStats(path: string, pathExists: bool, fileCount: nat, allowNonempty: bool)

  /** The issues `_check_output` adds for an output path that is set. */
  function OutputIssues(path: string, p: PathState, allowNonempty: bool, critical: set<string>): seq<Issue> {
    var count := CountFiles(p);
    if p != Absent && count > 0 && !allowNonempty then
      [Issue(IssueLevel("overwrite", critical), "overwrite",
             "output is non-empty and allow_nonempty=false: " + path, "file_count=" + Decimal(count))]
    else []
  }

  /**
   * At most one overwrite issue, raised exactly when the output holds a file
   * and `allow_nonempty` is false (an existing path with files below it: the
   * existence test adds nothing to the count test).
   */
  lemma OverwriteIff(path: string, p: PathState, allowNonempty: bool, critical: set<string>)
    ensures var r := OutputIssues(path, p, allowNonempty, critical);
      && |r| <= 1
      && (|r| == 1 <==> CountFiles(p) > 0 && !allowNonempty)
      && (forall i :: 0 <= i < |r| ==> r[i].check == "overwrite" && Leveled(r[i], critical))
  {}

  /** `_check_output`; `outPath` is `output.path`, `None` when unset. */
  method CheckOutput(log: IssueLog, outPath: Option<string>, p: PathState, allowNonempty: bool, critical: set<string>)
    returns (stats: Option<OutputStats>)
    modifies log
    ensures outPath.None? || outPath.value == "" ==> stats.None? && log.issues == old(log.issues)
    ensures outPath.Some? && outPath.value != "" ==>
      && stats == Some(OutputStats(outPath.value, p != Absent, CountFiles(p), allowNonempty))
      && log.issues == old(log.issues) + OutputIssues(outPath.value, p, allowNonempty, critical)
  {
    if outPath.None? || outPath.value == "" {
      return None;
    }
    var path := outPath.value;
    var pathExists := p != Absent;
    var fileCount := CountFiles(p);
    stats := Some(OutputStats(path, pathExists, fileCount, allowNonempty));
    if pathExists && fileCount > 0 && !allowNonempty {
      log.AddIssue("overwrite", "output is non-empty and allow_nonempty=false: " + path, critical,
                   "file_count=" + Decimal(fileCount));
    }
  }

  // ---------------------------------------------------------------- case directories

  /** A patch directory: its name and the names of the regular files in it. */
  datatype Patch = Patch(name: string, files: set<string>)

  /** A case directory: its name and its patch directories in sorted order. */
  datatype CaseDir = CaseDir(name: string, patches: seq<Patch>)

  /** A split directory: missing, or its case directories in sorted order. */
  datatype SplitDir = Missing | Present(cases: seq<CaseDir>)

  datatype CaseStats = CaseStats(nCases: nat, sampleChecked: nat)

  /** `[f for f in required_patch_files if not (patch / f).is_file()]`. */
  function MissingFiles(required: seq<string>, files: set<string>): (r: seq<string>)
    ensures forall f :: f in r <==> f in required && f !in files
    decreases |required|
  {
    if required == [] then []
    else
      var rest := MissingFiles(required[1..], files);
      assert required == [required[0]] + required[1..];
      if required[0] !in files then [required[0]] + rest else rest
  }

  /** `[p.name for p in case_dirs if not rx.match(p.name)]`. */
  function Mismatched(cases: seq<CaseDir>, matches: string -> bool): (r: seq<string>)
    ensures forall x :: x in r <==> exists i :: 0 <= i < |cases| && cases[i].name == x && !matches(x)
    decreases |cases|
  {
    if cases == [] then []
    else
      var rest := Mismatched(cases[1..], matches);
      assert forall i :: 1 <= i < |cases| ==> cases[i] == cases[1..][i - 1];
      if !matches(cases[0].name) then [cases[0].name] + rest else rest
  }

  /** Number of case directories the sample loop visits: `len(case_dirs[:max(0, sample)])`. */
  function Sampled(n: nat, sample: int): (k: nat)
    ensures sample >= n ==> k == n
    ensures 0 <= sample < n ==> k == sample
    ensures sample < 0 ==> k == 0
  {
    Min(n, Max(0, sample))
  }

  /** The sampled cases that have a patch directory: the ones the loop counts. */
  function WithPatches(cs: seq<CaseDir>): (k: nat)
    ensures k <= |cs|
    ensures k == |cs| <==> forall i :: 0 <= i < |cs| ==> cs[i].patches != []
    decreases |cs|
  {
    if cs == [] then 0
    else WithPatches(cs[..|cs| - 1]) + (if cs[|cs| - 1].patches != [] then 1 else 0)
  }

  /** The issues one sampled case raises: no patch directory, or required files missing in the first one. */
  function SampleIssue(splitName: string, c: CaseDir, required: seq<string>, critical: set<string>): (r: seq<Issue>)
    ensures |r| <= 1
    ensures c.patches == [] ==> |r| == 1
  {
    if c.patches == [] then
      [Issue(IssueLevel("dbt_structure", critical), "dbt_structure",
             "[" + splitName + "] case has no patch dirs: " + c.name, "")]
    else
      var patch := c.patches[0];
      var missing := MissingFiles(required, patch.files);
      if missing != [] then
        [Issue(IssueLevel("dbt_structure", critical), "dbt_structure",
               "[" + splitName + "] patch missing required files: " + c.name + "/" + patch.name,
               "missing=" + Join(missing, ","))]
      else []
  }

  /** A case with a patch directory raises an issue exactly when a required file is missing from its first patch. */
  lemma SampleIssueIff(splitName: string, c: CaseDir, required: seq<string>, critical: set<string>)
    requires c.patches != []
    ensures |SampleIssue(splitName, c, required, critical)| == 1 <==>
      exists f :: f in required && f !in c.patches[0].files
  {
    var missing := MissingFiles(required, c.patches[0].files);
    if missing != [] {
      assert missing[0] in missing;
    }
  }

  function SampleIssues(splitName: string, cs: seq<CaseDir>, required: seq<string>, critical: set<string>): (r: seq<Issue>)
    ensures forall i :: 0 <= i < |r| ==> r[i].check == "dbt_structure" && Leveled(r[i], critical)
    ensures WithPatches(cs) + |r| >= |cs|
    decreases |cs|
  {
    if cs == [] then []
    else SampleIssues(splitName, cs[..|cs| - 1], required, critical) + SampleIssue(splitName, cs[|cs| - 1], required, critical)
  }

  /** The too-few-cases issue. */
  function TooFewIssues(splitName: string, dirPath: string, n: nat, minCases: int, critical: set<string>): seq<Issue> {
    if n < minCases then
      [Issue(IssueLevel("nonempty", critical), "nonempty",
             "[" + splitName + "] too few cases: " + Decimal(n) + " < " + IntText(minCases), dirPath)]
    else []
  }

  /** The pattern issue; `matcher` is `None` when no `case_dir_pattern` is set. */
  function PatternIssues(splitName: string, cases: seq<CaseDir>, matcher: Option<string -> bool>, critical: set<string>): seq<Issue> {
    match matcher
    case None => []
    case Some(m) =>
      var bad := Mismatched(cases, m);
      if bad != [] then
        [Issue(IssueLevel("split", critical), "split",
               "[" + splitName + "] case name pattern mismatch: " + Decimal(|bad|), Join(FirstFive(bad), ", "))]
      else []
  }

  /** Everything `_check_case_dirs` appends. */
  function CaseDirIssues(splitName: string, dirPath: string, dir: SplitDir, minCases: int,
                         matcher: Option<string -> bool>, required: seq<string>, sample: int,
                         critical: set<string>): seq<Issue>
  {
    match dir
    case Missing =>
      [Issue(IssueLevel("nonempty", critical), "nonempty", "[" + splitName + "] missing dir: " + dirPath, "")]
    case Present(cs) =>
      TooFewIssues(splitName, dirPath, |cs|, minCases, critical)
        + PatternIssues(splitName, cs, matcher, critical)
        + SampleIssues(splitName, cs[..Sampled(|cs|, sample)], required, critical)
  }

  /** What `_check_case_dirs` returns. */
  function CaseDirStats(dir: SplitDir, sample: int): CaseStats {
    match dir
    case Missing => CaseStats(0, 0)
    case Present(cs) => CaseStats(|cs|, WithPatches(cs[..Sampled(|cs|, sample)]))
  }

  /** Some issue of `r` comes from check `name`. */
  predicate HasCheck(r: seq<Issue>, name: string) {
    exists i :: 0 <= i < |r| && r[i].check == name
  }

  lemma HasCheckConcat(a: seq<Issue>, b: seq<Issue>, name: string)
    ensures HasCheck(a + b, name) <==> HasCheck(a, name) || HasCheck(b, name)
  {
    if HasCheck(a + b, name) {
      var i :| 0 <= i < |a + b| && (a + b)[i].check == name;
      if i >= |a| { assert b[i - |a|] == (a + b)[i]; }
    }
    if HasCheck(a, name) {
      var i :| 0 <= i < |a| && a[i].check == name;
      assert (a + b)[i] == a[i];
    }
    if HasCheck(b, name) {
      var i :| 0 <= i < |b| && b[i].check == name;
      assert (a + b)[|a| + i] == b[i];
    }
  }

  /**
   * A `nonempty` issue comes out of a split directory exactly when the
   * directory is missing or holds fewer than `min_cases` case directories,
   * and every issue has the severity of its check.
   */
  lemma NonemptyIff(splitName: string, dirPath: string, dir: SplitDir, minCases: int,
                    matcher: Option<string -> bool>, required: seq<string>, sample: int, critical: set<string>)
    ensures var r := CaseDirIssues(splitName, dirPath, dir, minCases, matcher, required, sample, critical);
      && (HasCheck(r, "nonempty") <==> dir.Missing? || |dir.cases| < minCases)
      && (forall i :: 0 <= i < |r| ==> Leveled(r[i], critical))
  {
    var r := CaseDirIssues(splitName, dirPath, dir, minCases, matcher, required, sample, critical);
    if dir.Present? {
      var cs := dir.cases;
      var a := TooFewIssues(splitName, dirPath, |cs|, minCases, critical);
      var b := PatternIssues(splitName, cs, matcher, critical);
      var c := SampleIssues(splitName, cs[..Sampled(|cs|, sample)], required, critical);
      assert r == (a + b) + c;
      HasCheckConcat(a + b, c, "nonempty");
      HasCheckConcat(a, b, "nonempty");
      assert HasCheck(a, "nonempty") <==> |cs| < minCases by {
        if |cs| < minCases { assert a[0].check == "nonempty"; }
      }
      assert !HasCheck(b, "nonempty");
      assert !HasCheck(c, "nonempty");
      assert forall i :: 0 <= i < |a + b| ==> Leveled((a + b)[i], critical);
    } else {
      assert r[0].check == "nonempty";
    }
  }

  /**
   * A `split` issue comes out of `_check_case_dirs` exactly when the directory
   * exists, a pattern is set, and some case name does not match it; there is
   * at most one, and it counts the mismatching names.
   */
  lemma PatternIff(splitName: string, dirPath: string, dir: SplitDir, minCases: int,
                   matcher: Option<string -> bool>, required: seq<string>, sample: int, critical: set<string>)
    ensures var r := CaseDirIssues(splitName, dirPath, dir, minCases, matcher, required, sample, critical);
      HasCheck(r, "split") <==>
        dir.Present? && matcher.Some? && exists i :: 0 <= i < |dir.cases| && !matcher.value(dir.cases[i].name)
    ensures dir.Present? ==> |PatternIssues(splitName, dir.cases, matcher, critical)| <= 1
  {
    var r := CaseDirIssues(splitName, dirPath, dir, minCases, matcher, required, sample, critical);
    if dir.Present? {
      var cs := dir.cases;
      var a := TooFewIssues(splitName, dirPath, |cs|, minCases, critical);
      var b := PatternIssues(splitName, cs, matcher, critical);
      var c := SampleIssues(splitName, cs[..Sampled(|cs|, sample)], required, critical);
      assert r == (a + b) + c;
      HasCheckConcat(a + b, c, "split");
      HasCheckConcat(a, b, "split");
      assert !HasCheck(a, "split");
      assert !HasCheck(c, "split");
      if matcher.Some? {
        var bad := Mismatched(cs, matcher.value);
        if bad != [] {
          assert bad[0] in bad;
          assert b[0].check == "split";
        }
        if exists i :: 0 <= i < |cs| && !matcher.value(cs[i].name) {
          var i :| 0 <= i < |cs| && !matcher.value(cs[i].name);
          assert cs[i].name in bad;
        }
      }
    } else {
      assert !HasCheck(r, "split");
    }
  }

  /**
   * `sample_checked` is at most `min(n_cases, max(0, sample))`, and equal to
   * it exactly when every sampled case has a patch directory; a missing split
   * directory reports no cases and no samples.
   */
  lemma SampleCheckedBound(dir: SplitDir, sample: int)
    ensures var s := CaseDirStats(dir, sample);
      && s.sampleChecked <= Min(s.nCases, Max(0, sample))
      && (dir.Missing? ==> s == CaseStats(0, 0))
      && (dir.Present? ==>
            && s.nCases == |dir.cases|
            && (s.sampleChecked == Min(s.nCases, Max(0, sample))
                <==> (forall i :: 0 <= i < Sampled(|dir.cases|, sample) ==> dir.cases[i].patches != [])))
  {
    if dir.Present? {
      var cs := dir.cases;
      var k := Sampled(|cs|, sample);
      assert forall i :: 0 <= i < k ==> cs[..k][i] == cs[i];
    }
  }

  /** `_check_case_dirs`; `dirPath` is the split directory's path, used in messages. */
  method CheckCaseDirs(log: IssueLog, splitName: string, dirPath: string, dir: SplitDir, minCases: int,
                       matcher: Option<string -> bool>, required: seq<string>, sample: int,
                       critical: set<string>)
    returns (stats: CaseStats)
    modifies log
    ensures log.issues == old(log.issues) + CaseDirIssues(splitName, dirPath, dir, minCases, matcher, required, sample, critical)
    ensures stats == CaseDirStats(dir, sample)
  {
    if dir.Missing? {
      log.AddIssue("nonempty", "[" + splitName + "] missing dir: " + dirPath, critical, "");
      assert log.issues == old(log.issues) + CaseDirIssues(splitName, dirPath, dir, minCases, matcher, required, sample, critical);
      return CaseStats(0, 0);
    }
    var caseDirs := dir.cases;
    var nCases := |caseDirs|;
    if nCases < minCases {
      log.AddIssue("nonempty", "[" + splitName + "] too few cases: " + Decimal(nCases) + " < " + IntText(minCases),
                   critical, dirPath);
    }
    ghost var tooFew := TooFewIssues(splitName, dirPath, nCases, minCases, critical);
    assert log.issues == old(log.issues) + tooFew;
    if matcher.Some? {
      var bad := Mismatched(caseDirs, matcher.value);
      if bad != [] {
        log.AddIssue("split", "[" + splitName + "] case name pattern mismatch: " + Decimal(|bad|), critical,
                     Join(FirstFive(bad), ", "));
      }
    }
    ghost var pattern := PatternIssues(splitName, caseDirs, matcher, critical);
    assert log.issues == old(log.issues) + tooFew + pattern;
    var sampled := caseDirs[..Sampled(nCases, sample)];
    ghost var mid := log.issues;
    var sampleChecked := CheckSamples(log, splitName, sampled, required, critical);
    ghost var samples := SampleIssues(splitName, sampled, required, critical);
    ConcatAssoc(old(log.issues), tooFew, pattern);
    assert mid == old(log.issues) + (tooFew + pattern);
    assert log.issues == mid + samples;
    ConcatAssoc(old(log.issues), tooFew + pattern, samples);
    assert CaseDirIssues(splitName, dirPath, dir, minCases, matcher, required, sample, critical)
        == tooFew + pattern + samples;
    assert log.issues == old(log.issues) + CaseDirIssues(splitName, dirPath, dir, minCases, matcher, required, sample, critical);
    stats := CaseStats(nCases, sampleChecked);
  }

  /**
   * Regrouping appended issue lists. A lemma rather than an inline assertion:
   * as an assertion inside the state-changing methods the sequence equality
   * costs the solver far more.
   */
  lemma ConcatAssoc(a: seq<Issue>, b: seq<Issue>, c: seq<Issue>)
    ensures (a + b) + c == a + (b + c)
  {}

  /** One more sampled case: its issues and its patch count are added at the end. */
  lemma SampleStep(splitName: string, sampled: seq<CaseDir>, i: nat, required: seq<string>, critical: set<string>)
    requires i < |sampled|
    ensures SampleIssues(splitName, sampled[..i + 1], required, critical)
         == SampleIssues(splitName, sampled[..i], required, critical) + SampleIssue(splitName, sampled[i], required, critical)
    ensures WithPatches(sampled[..i + 1]) == WithPatches(sampled[..i]) + if sampled[i].patches != [] then 1 else 0
  {
    assert sampled[..i + 1][..i] == sampled[..i] && sampled[..i + 1][i] == sampled[i];
  }

  /** The sample loop of `_check_case_dirs` over `case_dirs[:max(0, sample)]`. */
  method CheckSamples(log: IssueLog, splitName: string, sampled: seq<CaseDir>, required: seq<string>,
                      critical: set<string>)
    returns (sampleChecked: nat)
    modifies log
    ensures log.issues == old(log.issues) + SampleIssues(splitName, sampled, required, critical)
    ensures sampleChecked == WithPatches(sampled)
  {
    sampleChecked := 0;
    for i := 0 to |sampled|
      invariant log.issues == old(log.issues) + SampleIssues(splitName, sampled[..i], required, critical)
      invariant sampleChecked == WithPatches(sampled[..i])
    {
      var caseDir := sampled[i];
      ghost var prev := SampleIssues(splitName, sampled[..i], required, critical);
      ghost var issue := SampleIssue(splitName, caseDir, required, critical);
      SampleStep(splitName, sampled, i, required, critical);
      ConcatAssoc(old(log.issues), prev, issue);
      if caseDir.patches == [] {
        log.AddIssue("dbt_structure", "[" + splitName + "] case has no patch dirs: " + caseDir.name, critical, "");
        continue;
      }
      var patch := caseDir.patches[0];
      var missing := MissingFiles(required, patch.files);
      if missing != [] {
        log.AddIssue("dbt_structure",
                     "[" + splitName + "] patch missing required files: " + caseDir.name + "/" + patch.name,
                     critical, "missing=" + Join(missing, ","));
      } else {
        assert issue == [];
      }
      sampleChecked := sampleChecked + 1;
    }
    assert sampled[..|sampled|] == sampled;
  }

  // ---------------------------------------------------------------- train/test overlap

  function NameSet(cs: seq<CaseDir>): set<string> {
    set i | 0 <= i < |cs| :: cs[i].name
  }

  /**
   * The set `train_cases & test_cases` as a list: every common name exactly
   * once (a name the train listing repeats is kept at its last place), so
   * sorting it gives `sorted(list(overlap))`.
   */
  function Common(train: seq<CaseDir>, test: set<string>): (r: seq<string>)
    ensures forall x :: x in r <==> x in NameSet(train) && x in test
    ensures forall i, j :: 0 <= i < j < |r| ==> r[i] != r[j]
    ensures |r| == |NameSet(train) * test|
    decreases |train|
  {
    if train == [] then []
    else
      var rest := Common(train[1..], test);
      var x := train[0].name;
      NameSetCons(train, test);
      if x in test && x !in NameSet(train[1..]) then [x] + rest else rest
  }

  /** The name set of a listing, split at its first entry, and its intersection with `test`. */
  lemma NameSetCons(train: seq<CaseDir>, test: set<string>)
    requires train != []
    ensures NameSet(train) == {train[0].name} + NameSet(train[1..])
    ensures var x, t := train[0].name, NameSet(train[1..]) * test;
      if x in test && x !in NameSet(train[1..]) then NameSet(train) * test == {x} + t && x !in t && |NameSet(train) * test| == |t| + 1
      else NameSet(train) * test == t
  {
    assert forall i :: 1 <= i < |train| ==> train[i] == train[1..][i - 1];
    assert NameSet(train) == {train[0].name} + NameSet(train[1..]);
  }

  /** The overlap issue of one fold. */
  function OverlapIssues(foldName: string, train: SplitDir, test: SplitDir, critical: set<string>): seq<Issue> {
    if train.Present? && test.Present? then
      var overlap := NameSet(train.cases) * NameSet(test.cases);
      if overlap != {} then
        [Issue(IssueLevel("split", critical), "split",
               foldName + " train/test overlap: " + Decimal(|overlap|),
               Join(FirstFive(SortStrings(Common(train.cases, NameSet(test.cases)))), ", "))]
      else []
    else []
  }

  /** Two listings share a case name exactly when their name sets intersect. */
  lemma SharedName(a: seq<CaseDir>, b: seq<CaseDir>)
    ensures NameSet(a) * NameSet(b) != {} <==>
      exists i, j :: 0 <= i < |a| && 0 <= j < |b| && a[i].name == b[j].name
  {
    if NameSet(a) * NameSet(b) != {} {
      var x :| x in NameSet(a) * NameSet(b);
      var i :| 0 <= i < |a| && a[i].name == x;
      var j :| 0 <= j < |b| && b[j].name == x;
    }
    if exists i, j :: 0 <= i < |a| && 0 <= j < |b| && a[i].name == b[j].name {
      var i, j :| 0 <= i < |a| && 0 <= j < |b| && a[i].name == b[j].name;
      assert a[i].name in NameSet(a) * NameSet(b);
    }
  }

  /** An overlap issue is raised exactly when both split directories exist and share a case name. */
  lemma OverlapIff(foldName: string, train: SplitDir, test: SplitDir, critical: set<string>)
    ensures var r := OverlapIssues(foldName, train, test, critical);
      && |r| <= 1
      && (|r| == 1 <==>
            (train.Present? && test.Present? &&
             exists i, j :: 0 <= i < |train.cases| && 0 <= j < |test.cases| && train.cases[i].name == test.cases[j].name))
      && (forall k :: 0 <= k < |r| ==> r[k].check == "split" && Leveled(r[k], critical))
  {
    if train.Present? && test.Present? {
      SharedName(train.cases, test.cases);
    }
  }

  /** The overlap check of `_check_dataset` for one fold. */
  method CheckOverlap(log: IssueLog, foldName: string, train: SplitDir, test: SplitDir, critical: set<string>)
    modifies log
    ensures log.issues == old(log.issues) + OverlapIssues(foldName, train, test, critical)
  {
    if train.Present? && test.Present? {
      var trainCases := NameSet(train.cases);
      var testCases := NameSet(test.cases);
      var overlap := trainCases * testCases;
      if overlap != {} {
        log.AddIssue("split", foldName + " train/test overlap: " + Decimal(|overlap|), critical,
                     Join(FirstFive(SortStrings(Common(train.cases, testCases))), ", "));
      }
    }
  }

  // ---------------------------------------------------------------- report

  /** The `--mode` choices. */
  datatype Mode = Strict | Hybrid | WarnMode

  const DefaultCritical: set<string> := {"nonempty", "dbt_structure", "split", "overwrite"}

  /** The critical set `main` uses: the contract's own, else the mode's default. */
  function CriticalChecks(configured: set<string>, mode: Mode): (c: set<string>)
    ensures configured != {} ==> c == configured
    ensures configured == {} && mode in {Strict, Hybrid} ==> c == DefaultCritical
    ensures configured == {} && mode == WarnMode ==> c == {}
  {
    if configured != {} then configured
    else if mode in {Strict, Hybrid} then DefaultCritical
    else {}
  }

  /** The issues of one severity, in the order of the list (`OfSeverityConcat`). */
  function OfSeverity(issues: seq<Issue>, s: Severity): (r: seq<Issue>)
    ensures forall x :: x in r <==> x in issues && x.severity == s
    decreases |issues|
  {
    if issues == [] then []
    else
      var rest := OfSeverity(issues[..|issues| - 1], s);
      var x := issues[|issues| - 1];
      assert issues == issues[..|issues| - 1] + [x];
      if x.severity == s then rest + [x] else rest
  }

  /** The filter keeps the order of the issue list: it distributes over concatenation (and `OfSeverityOne` settles a single issue). */
  lemma {:induction false} OfSeverityConcat(a: seq<Issue>, b: seq<Issue>, s: Severity)
    ensures OfSeverity(a + b, s) == OfSeverity(a, s) + OfSeverity(b, s)
    decreases |b|
  {
    if b == [] {
      assert a + b == a;
    } else {
      var n := |b| - 1;
      var c := a + b;
      var x := b[n];
      var tail := if x.severity == s then [x] else [];
      assert OfSeverity(c, s) == OfSeverity(a + b[..n], s) + tail by {
        assert c[..|c| - 1] == a + b[..n];
        assert c[|c| - 1] == x;
      }
      assert OfSeverity(b, s) == OfSeverity(b[..n], s) + tail;
      OfSeverityConcat(a, b[..n], s);
    }
  }

  /** A single issue is kept iff it has the severity. */
  lemma OfSeverityOne(x: Issue, s: Severity)
    ensures OfSeverity([x], s) == (if x.severity == s then [x] else [])
  {
    assert [x][..0] == [];
  }

  datatype Report = Report(ok: bool, errors: seq<Issue>, warnings: seq<Issue>, exitCode: int)

  /** The report and exit code of `main`. */
  function Summarize(issues: seq<Issue>): (r: Report)
    ensures r.ok <==> forall i :: 0 <= i < |issues| ==> issues[i].severity != Error
    ensures r.exitCode == 0 <==> r.ok
    ensures r.exitCode == 0 || r.exitCode == 2
  {
    var errors := OfSeverity(issues, Error);
    var warns := OfSeverity(issues, Warn);
    var ok := |errors| == 0;
    assert ok <==> forall i :: 0 <= i < |issues| ==> issues[i].severity != Error by {
      if !ok { assert errors[0] in errors; }
    }
    Report(ok, errors, warns, if ok then 0 else 2)
  }

  /** Errors and warnings partition the issues. */
  lemma {:induction false} SeveritiesPartition(issues: seq<Issue>)
    ensures multiset(OfSeverity(issues, Error)) + multiset(OfSeverity(issues, Warn)) == multiset(issues)
    decreases |issues|
  {
    if issues != [] {
      var n := |issues| - 1;
      SeveritiesPartition(issues[..n]);
      assert issues == issues[..n] + [issues[n]];
    }
  }

  /** For issues made by `_add_issue`, the run is ok exactly when no critical check raised one. */
  lemma OkIffNoCriticalIssue(issues: seq<Issue>, critical: set<string>)
    requires forall i :: 0 <= i < |issues| ==> Leveled(issues[i], critical)
    ensures Summarize(issues).ok <==> forall i :: 0 <= i < |issues| ==> issues[i].check !in critical
  {}

  /** With no configured critical checks, warn mode always exits 0 and strict mode fails on any overwrite issue. */
  lemma ModeDefaults(issues: seq<Issue>, mode: Mode)
    requires forall i :: 0 <= i < |issues| ==> Leveled(issues[i], CriticalChecks({}, mode))
    ensures mode == WarnMode ==> Summarize(issues).exitCode == 0
    ensures mode != WarnMode && (exists i :: 0 <= i < |issues| && issues[i].check == "overwrite") ==>
      Summarize(issues).exitCode == 2
  {
    OkIffNoCriticalIssue(issues, CriticalChecks({}, mode));
  }
}
