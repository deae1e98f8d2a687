/**
 * File naming in src/automation/screenshot_manager.py: `_safe_name` and the
 * folder, file name and retry rules of `ScreenshotManager.capture`. The clock,
 * the random id and the page are parameters.
 */
module ScreenshotManager {
  import opened Wrappers
  import opened Text
  import opened Paths

  /** `_safe_name` keeps at most this many characters. */
  const MaxNameLength: nat := 80

  /** A character `_safe_name` keeps as it is: alphanumeric, `.`, `-` or `_`. */
  predicate IsSafeChar(c: char) {
    IsAlnum(c) || c == '.' || c == '-' || c == '_'
  }

  function SafeChar(c: char): (r: char)
    ensures IsSafeChar(r)
    ensures IsSafeChar(c) <==> r == c
  {
    if IsSafeChar(c) then c else '_'
  }

  /** `_safe_name`: each disallowed character becomes `_`, and the result is cut to 80 characters. */
  function SafeName(name: string): (r: string)
    ensures |r| == if |name| < MaxNameLength then |name| else MaxNameLength
    ensures forall i :: 0 <= i < |r| ==> r[i] == (if IsSafeChar(name[i]) then name[i] else '_')
    ensures forall i :: 0 <= i < |r| ==> IsSafeChar(r[i])
  {
    var safe := seq(|name|, i requires 0 <= i < |name| => SafeChar(name[i]));
    if |safe| <= MaxNameLength then safe else safe[..MaxNameLength]
  }

  /** A name made only of allowed characters and no longer than 80 comes back unchanged. */
  lemma SafeNameKeepsSafe(name: string)
    requires |name| <= MaxNameLength
    requires forall i :: 0 <= i < |name| ==> IsSafeChar(name[i])
    ensures SafeName(name) == name
  {
  }

  /** `_safe_name` is idempotent. */
  lemma SafeNameIdempotent(name: string)
    ensures SafeName(SafeName(name)) == SafeName(name)
  {
    SafeNameKeepsSafe(SafeName(name));
  }

  /** The step label: `_safe_name(step_name or "step")`. */
  function StepLabel(stepName: string): (r: string)
    ensures stepName == [] ==> r == "step"
    ensures stepName != [] ==> r == SafeName(stepName)
  {
    SafeName(if stepName == [] then "step" else stepName)
  }

  /** The folder: the base directory, or a sanitised sub-directory of it when `custom_subdir` is non-empty. */
  function Folder(base: string, customSubdir: Option<string>): (r: string)
    ensures customSubdir.None? || customSubdir.value == [] ==> r == base
    ensures customSubdir.Some? && customSubdir.value != [] ==> r == PathJoin(base, SafeName(customSubdir.value))
  {
    if customSubdir.Some? && customSubdir.value != [] then PathJoin(base, SafeName(customSubdir.value)) else base
  }

  /** The file name: a non-empty supplied one verbatim, else `{timestamp}_{safe_step}_{uid}.png`. */
  function FileName(filename: Option<string>, stepName: string, timestamp: string, uid: string): (r: string)
    ensures filename.Some? && filename.value != [] ==> r == filename.value
    ensures filename.None? || filename.value == [] ==>
      r == timestamp + "_" + StepLabel(stepName) + "_" + uid + ".png"
  {
    if filename.Some? && filename.value != [] then filename.value
    else timestamp + "_" + StepLabel(stepName) + "_" + uid + ".png"
  }

  /** The metadata `capture` returns; the viewport probe is not part of this model. */
  datatype ShotMeta = ShotMeta(path: string, filename: string, stepName: string, timestamp: string, pageUrl: Option<string>)

  /**
   * `capture`. `screenshot(path, fullPage)` stands for one `page.screenshot`
   * call and gives its exception message, or None when it succeeds. The first
   * call uses `fullPage`; when it fails a viewport-only call follows; when
   * that fails too the capture fails with `Screenshot failed: ...`.
   */
  function Capture(base: string, stepName: string, fullPage: bool, customSubdir: Option<string>,
                   filename: Option<string>, timestamp: string, uid: string,
                   screenshot: (string, bool) -> Option<string>, pageUrl: Option<string>): (r: Result<ShotMeta, string>)
    ensures var path := PathJoin(Folder(base, customSubdir), FileName(filename, stepName, timestamp, uid));
      && (r.Ok? <==> screenshot(path, fullPage).None? || screenshot(path, false).None?)
      && (r.Ok? ==> r.value.path == path && r.value.filename == FileName(filename, stepName, timestamp, uid)
                    && r.value.stepName == stepName && r.value.pageUrl == pageUrl)
      && (r.Err? ==> r.error == "Screenshot failed: " + screenshot(path, false).value)
  {
    var name := FileName(filename, stepName, timestamp, uid);
    var path := PathJoin(Folder(base, customSubdir), name);
    var first := screenshot(path, fullPage);
    var second := if first.None? then None else screenshot(path, false);
    if second.Some? then Err("Screenshot failed: " + second.value)
    else Ok(ShotMeta(path, name, stepName, timestamp, pageUrl))
  }

  /** With no supplied file name, the file lands directly in the folder and its name carries the sanitised step label. */
  lemma DefaultPathShape(base: string, stepName: string, customSubdir: Option<string>, timestamp: string, uid: string)
    requires !StartsWith(timestamp, "/")
    ensures var folder := Folder(base, customSubdir);
      var path := PathJoin(folder, FileName(None, stepName, timestamp, uid));
      path == (if folder == [] || folder[|folder| - 1] == '/' then folder else folder + "/")
              + timestamp + "_" + StepLabel(stepName) + "_" + uid + ".png"
  {
    var name := FileName(None, stepName, timestamp, uid);
    var folder := Folder(base, customSubdir);
    var lead := if folder == [] || folder[|folder| - 1] == '/' then folder else folder + "/";
    UnrootedName(timestamp, "_" + StepLabel(stepName) + "_" + uid + ".png");
    PrefixChain(lead, timestamp, StepLabel(stepName), uid);
    assert PathJoin(folder, name) == lead + name;
  }

  /** A name that starts with a non-rooted part is not rooted. */
  lemma UnrootedName(first: string, rest: string)
    requires !StartsWith(first, "/") && rest != [] && rest[0] != '/'
    ensures !StartsWith(first + rest, "/")
  {
    if first == [] {
      assert (first + rest)[0] == rest[0];
    } else {
      assert (first + rest)[0] == first[0];
    }
  }

  /** Putting a folder in front of the file-name chain re-associates it. */
  lemma PrefixChain(lead: string, timestamp: string, step: string, uid: string)
    ensures lead + (timestamp + "_" + step + "_" + uid + ".png")
            == lead + timestamp + "_" + step + "_" + uid + ".png"
  {
    var tail := "_" + step + "_" + uid + ".png";
    assert timestamp + "_" + step + "_" + uid + ".png" == timestamp + tail;
    assert lead + timestamp + "_" + step + "_" + uid + ".png" == (lead + timestamp) + tail;
  }
}
