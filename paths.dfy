/** The part of `os.path` the model needs: POSIX `os.path.join` of two parts. */
module Paths {
  import opened Text

  /**
   * `os.path.join(a, b)`: an absolute `b` replaces `a`; otherwise a `/` is
   * inserted unless `a` is empty or already ends with one.
   */
  function PathJoin(a: string, b: string): (r: string)
    ensures StartsWith(b, "/") ==> r == b
    ensures !StartsWith(b, "/") && (a == [] || a[|a| - 1] == '/') ==> r == a + b
    ensures !StartsWith(b, "/") && a != [] && a[|a| - 1] != '/' ==> r == a + "/" + b
  {
    if StartsWith(b, "/") then b
    else if a == [] || a[|a| - 1] == '/' then a + b
    else a + "/" + b
  }

  /** The joined path always ends with the second part, whichever branch applies. */
  lemma JoinEndsWith(a: string, b: string)
    ensures |b| <= |PathJoin(a, b)|
    ensures PathJoin(a, b)[|PathJoin(a, b)| - |b|..] == b
  {
    var r := PathJoin(a, b);
    if !StartsWith(b, "/") && a != [] && a[|a| - 1] != '/' {
      assert r == (a + "/") + b;
    }
  }
}
