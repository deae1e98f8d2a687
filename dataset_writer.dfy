/**
 * src/storage/dataset_writer.py: the task slug, the choice of the next run
 * directory and the append-and-count of `write_step`. The directory listing
 * is a parameter; the two JSON files of a run directory are fields of
 * `RunDir`, one value per file, None while the file does not exist.
 */
module DatasetWriter {
  import opened Wrappers
  import opened Text
  import opened Paths
  import opened MessageProtocol

  /** `_slug`: each non-alphanumeric character becomes `_`, then the whole is lower-cased. */
  function Slug(text: string): (r: string)
    ensures |r| == |text|
    ensures forall i :: 0 <= i < |text| ==> r[i] == (if IsAlnum(text[i]) then ToLowerChar(text[i]) else '_')
    ensures forall i :: 0 <= i < |r| ==> IsLower(r[i]) || IsDigit(r[i]) || r[i] == '_'
  {
    Lower(seq(|text|, i requires 0 <= i < |text| => if IsAlnum(text[i]) then text[i] else '_'))
  }

  /** `d.isdigit()`: a non-empty run of digits. */
  predicate IsRunName(d: string) {
    d != [] && forall i :: 0 <= i < |d| ==> IsDigit(d[i])
  }

  /** The `existing` list of `create_run_dir`: all-digit names that are directories, in listing order. */
  function ExistingRuns(names: seq<string>, isDir: string -> bool): (r: seq<string>)
    ensures forall d :: d in r <==> d in names && IsRunName(d) && isDir(d)
  {
    if names == [] then []
    else
      var rest := ExistingRuns(names[..|names| - 1], isDir);
      var d := names[|names| - 1];
      assert names == names[..|names| - 1] + [d];
      if IsRunName(d) && isDir(d) then rest + [d] else rest
  }

  /** `max(int(d) for d in existing)`, with 0 for an empty list. */
  function MaxRunId(runs: seq<string>): (m: nat)
    requires forall d :: d in runs ==> IsRunName(d)
    ensures forall d :: d in runs && IsRunName(d) ==> DigitsValue(d) <= m
    ensures runs == [] ==> m == 0
    ensures runs != [] ==> exists d :: d in runs && IsRunName(d) && DigitsValue(d) == m
  {
    if runs == [] then 0
    else
      var rest := MaxRunId(runs[1..]);
      assert forall d :: d in runs[1..] ==> d in runs;
      assert IsRunName(runs[0]);
      if DigitsValue(runs[0]) >= rest then DigitsValue(runs[0]) else rest
  }

  /** The id `create_run_dir` picks: one more than the largest existing run, or 1 when there is none. */
  function NextRunId(names: seq<string>, isDir: string -> bool): (r: nat)
    ensures r >= 1
    ensures forall d :: d in names && IsRunName(d) && isDir(d) ==> DigitsValue(d) < r
    ensures r == 1 || exists d :: d in names && IsRunName(d) && isDir(d) && r == DigitsValue(d) + 1
  {
    var runs := ExistingRuns(names, isDir);
    if runs == [] then 1 else MaxRunId(runs) + 1
  }

  /** The path of the new run directory: the id zero-padded to four digits, under the base directory. */
  function RunDirPath(base: string, names: seq<string>, isDir: string -> bool): string {
    PathJoin(base, ZeroPad4(NextRunId(names, isDir)))
  }

  lemma {:induction false} DigitsValueAppend(s: string, c: char)
    requires forall i :: 0 <= i < |s| ==> IsDigit(s[i])
    requires IsDigit(c)
    ensures DigitsValue(s + [c]) == DigitsValue(s) * 10 + (c as int - '0' as int)
  {
    assert (s + [c])[..|s|] == s;
  }

  lemma {:induction false} NatToStringValue(n: nat)
    ensures DigitsValue(NatToString(n)) == n
  {
    if n >= 10 {
      NatToStringValue(n / 10);
      DigitsValueAppend(NatToString(n / 10), DigitChar(n % 10));
    }
  }

  lemma {:induction false} LeadingZerosValue(z: string, d: string)
    requires forall i :: 0 <= i < |z| ==> z[i] == '0'
    requires forall i :: 0 <= i < |d| ==> IsDigit(d[i])
    ensures DigitsValue(z + d) == DigitsValue(d)
    decreases |z| + |d|
  {
    if d == [] {
      assert z + d == z;
      if z != [] {
        LeadingZerosValue(z[..|z| - 1], []);
        assert z[..|z| - 1] + [] == z[..|z| - 1];
      }
    } else {
      var init := d[..|d| - 1];
      var last := d[|d| - 1];
      assert d == init + [last];
      assert z + d == (z + init) + [last];
      LeadingZerosValue(z, init);
      DigitsValueAppend(z + init, last);
      DigitsValueAppend(init, last);
    }
  }

  /** The four-digit name reads back as the id it was made from, so the new directory's name is its id. */
  lemma ZeroPad4RoundTrip(n: nat)
    ensures DigitsValue(ZeroPad4(n)) == n
  {
    NatToStringValue(n);
    var d := NatToString(n);
    if |d| < 4 {
      LeadingZerosValue(seq(4 - |d|, _ => '0'), d);
    }
  }

  /** The directory `create_run_dir` makes is new: its name is no existing run directory's name. */
  lemma NewRunIsFresh(names: seq<string>, isDir: string -> bool)
    ensures forall d :: d in names && IsRunName(d) && isDir(d) ==> d != ZeroPad4(NextRunId(names, isDir))
  {
    ZeroPad4RoundTrip(NextRunId(names, isDir));
  }

  /** `manifest.json`; the clock's `updated_at` is a parameter. */
  datatype Manifest = Manifest(task: string, updatedAt: string, numSteps: nat)

  /** One run directory with the contents of its `steps.json` and `manifest.json`. */
  class RunDir {
    const path: string
    var steps: Option<seq<StepExecutionResult>>
    var manifest: Option<Manifest>

    /** A manifest, once written, counts the records in `steps.json`. */
    predicate Valid()
      reads this
    {
      manifest.Some? ==> steps.Some? && manifest.value.numSteps == |steps.value|
    }

    /** The directory just made by `create_run_dir`: neither file exists yet. */
    constructor (path: string)
      ensures this.path == path && steps.None? && manifest.None?
      ensures Valid()
    {
      this.path := path;
      steps := None;
      manifest := None;
    }

    /** The records written so far; a missing `steps.json` reads as none. */
    function Records(): (r: seq<StepExecutionResult>)
      reads this
      ensures steps.None? ==> r == []
      ensures steps.Some? ==> r == steps.value
    {
      if steps.Some? then steps.value else []
    }

    /** `write_step`: loads the records, appends this one, writes them back, then rewrites the manifest with the new count. */
    method WriteStep(task: string, step: StepExecutionResult, updatedAt: string)
      modifies this
      requires Valid()
      ensures Valid()
      ensures steps == Some(old(Records()) + [step])
      ensures manifest == Some(Manifest(task, updatedAt, |old(Records())| + 1))
    {
      var loaded: seq<StepExecutionResult>;
      if steps.Some? {
        loaded := steps.value;
      } else {
        loaded := [];
      }
      loaded := loaded + [step];
      steps := Some(loaded);
      manifest := Some(Manifest(task, updatedAt, |loaded|));
    }
  }

  /** Writing steps one by one from a fresh directory leaves exactly those records, in order, and a manifest counting them. */
  method WriteAll(dir: RunDir, task: string, records: seq<StepExecutionResult>, updatedAt: string)
    modifies dir
    requires dir.steps.None? && dir.manifest.None?
    ensures dir.Records() == records
    ensures records != [] ==> dir.manifest == Some(Manifest(task, updatedAt, |records|))
    ensures records == [] ==> dir.manifest.None?
  {
    for k := 0 to |records|
      invariant dir.Valid()
      invariant dir.Records() == records[..k]
      invariant k == 0 ==> dir.manifest.None?
      invariant k > 0 ==> dir.manifest == Some(Manifest(task, updatedAt, k))
    {
      dir.WriteStep(task, records[k], updatedAt);
      assert records[..k + 1] == records[..k] + [records[k]];
    }
    assert records[..|records|] == records;
  }
}
