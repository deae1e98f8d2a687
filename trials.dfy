/**
 * Trying candidates in order until one works, the pattern behind every
 * fallback chain of the step executor. `works(n, a)` says whether candidate
 * `a` succeeds when it is tried after `n` earlier calls into the page.
 */
module Trials {
  /** The candidates tried, in order, and whether the last of them worked. */
  datatype Trial<A> = Trial(made: seq<A>, ok: bool)

  /**
   * The index of the first candidate from `i` on that works at its turn;
   * candidate `j` is tried after `time + j` calls.
   */
  function FirstFrom<A>(works: (nat, A) -> bool, time: nat, attempts: seq<A>, i: nat): (r: Option<nat>)
    requires i <= |attempts|
    decreases |attempts| - i
    ensures r.Some? ==> i <= r.value < |attempts|
  {
    if i == |attempts| then None
    else if works(time + i, attempts[i]) then Some(i)
    else FirstFrom(works, time, attempts, i + 1)
  }

  /** The two properties of the first working candidate: it works, and none before it does. */
  predicate IsFirst<A>(works: (nat, A) -> bool, time: nat, attempts: seq<A>, i: nat, r: Option<nat>) {
    (r.Some? ==> i <= r.value < |attempts| && works(time + r.value, attempts[r.value])) &&
    (forall j :: i <= j < (if r.Some? then r.value else |attempts|) ==> !works(time + j, attempts[j]))
  }

  /** `FirstFrom` is the one index with the properties of the first working candidate. */
  lemma {:induction false} FirstFromIs<A>(works: (nat, A) -> bool, time: nat, attempts: seq<A>, i: nat, r: Option<nat>)
    requires i <= |attempts|
    ensures IsFirst(works, time, attempts, i, r) <==> FirstFrom(works, time, attempts, i) == r
    decreases |attempts| - i
  {
    if i < |attempts| && !works(time + i, attempts[i]) {
      FirstFromIs(works, time, attempts, i + 1, r);
      if r == Some(i) {
        assert !IsFirst(works, time, attempts, i, r);
      }
    }
  }

  /** The first candidate that works at its turn, when there is one. */
  function First<A>(works: (nat, A) -> bool, time: nat, attempts: seq<A>): (r: Option<nat>)
    ensures r.Some? ==> r.value < |attempts|
  {
    FirstFrom(works, time, attempts, 0)
  }

  /** The first working candidate is the one its two properties describe. */
  lemma FirstIs<A>(works: (nat, A) -> bool, time: nat, attempts: seq<A>, r: Option<nat>)
    requires IsFirst(works, time, attempts, 0, r)
    ensures First(works, time, attempts) == r
  {
    FirstFromIs(works, time, attempts, 0, r);
  }

  /** The first working candidate works, and none before it does. */
  lemma FirstWorks<A>(works: (nat, A) -> bool, time: nat, attempts: seq<A>)
    ensures IsFirst(works, time, attempts, 0, First(works, time, attempts))
  {
    FirstFromIs(works, time, attempts, 0, First(works, time, attempts));
  }

  /** Trying `attempts` in order from call number `time`: every candidate up to the first that works. */
  function Run<A>(works: (nat, A) -> bool, time: nat, attempts: seq<A>): (t: Trial<A>)
    ensures t.ok ==> t.made != []
    ensures !t.ok ==> t.made == attempts
  {
    match First(works, time, attempts)
    case Some(k) => Trial(attempts[..k + 1], true)
    case None => Trial(attempts, false)
  }

  /**
   * Trying stops at the first candidate that works: each candidate tried
   * before the last one failed at its turn, and the last one worked exactly
   * when the trial succeeded.
   */
  lemma RunFirstSuccess<A>(works: (nat, A) -> bool, time: nat, attempts: seq<A>, k: nat)
    requires k < |Run(works, time, attempts).made|
    ensures var t := Run(works, time, attempts);
      works(time + k, t.made[k]) <==> (t.ok && k == |t.made| - 1)
  {
    FirstWorks(works, time, attempts);
  }

  /** What was tried is a prefix of the candidates: nothing is skipped and nothing is invented. */
  lemma RunPrefix<A>(works: (nat, A) -> bool, time: nat, attempts: seq<A>)
    ensures var t := Run(works, time, attempts);
      |t.made| <= |attempts| && t.made == attempts[..|t.made|]
  {
  }

  /** The trial of one list, continued by the trial of a second one when the first found nothing. */
  function Then<A>(t: Trial<A>, u: Trial<A>): (r: Trial<A>)
    ensures t.ok ==> r == t
    ensures !t.ok ==> r.made == t.made + u.made && r.ok == u.ok
  {
    if t.ok then t else Trial(t.made + u.made, u.ok)
  }

  /** Trying `a + b` is trying `a`, then, if nothing in `a` worked, trying `b`. */
  lemma RunConcat<A>(works: (nat, A) -> bool, time: nat, a: seq<A>, b: seq<A>)
    ensures Run(works, time, a + b) == Then(Run(works, time, a), Run(works, time + |a|, b))
  {
    var fa := First(works, time, a);
    FirstWorks(works, time, a);
    FirstWorks(works, time + |a|, b);
    if fa.Some? {
      ConcatFirstInA(works, time, a, b, fa.value);
      assert (a + b)[..fa.value + 1] == a[..fa.value + 1];
    } else {
      var fb := First(works, time + |a|, b);
      ConcatFirstInB(works, time, a, b, fb);
      if fb.Some? {
        assert (a + b)[..|a| + fb.value + 1] == a + b[..fb.value + 1];
      }
    }
  }

  lemma ConcatFirstInA<A>(works: (nat, A) -> bool, time: nat, a: seq<A>, b: seq<A>, k: nat)
    requires First(works, time, a) == Some(k)
    ensures First(works, time, a + b) == Some(k)
  {
    FirstWorks(works, time, a);
    forall j | 0 <= j < k
      ensures !works(time + j, (a + b)[j])
    {
      assert (a + b)[j] == a[j];
    }
    assert (a + b)[k] == a[k];
    FirstIs(works, time, a + b, Some(k));
  }

  lemma ConcatFirstInB<A>(works: (nat, A) -> bool, time: nat, a: seq<A>, b: seq<A>, fb: Option<nat>)
    requires First(works, time, a).None?
    requires First(works, time + |a|, b) == fb
    ensures First(works, time, a + b) == if fb.Some? then Some(|a| + fb.value) else None
  {
    FirstWorks(works, time, a);
    FirstWorks(works, time + |a|, b);
    var r: Option<nat> := if fb.Some? then Some(|a| + fb.value) else None;
    var end := if fb.Some? then |a| + fb.value else |a + b|;
    forall j | 0 <= j < end
      ensures !works(time + j, (a + b)[j])
    {
      if j < |a| {
        assert (a + b)[j] == a[j];
      } else {
        assert (a + b)[j] == b[j - |a|];
        assert time + j == (time + |a|) + (j - |a|);
      }
    }
    if fb.Some? {
      assert (a + b)[|a| + fb.value] == b[fb.value];
      assert time + (|a| + fb.value) == (time + |a|) + fb.value;
    }
    FirstIs(works, time, a + b, r);
  }

  /** Trying one more candidate after a failed trial. */
  lemma RunSnoc<A>(works: (nat, A) -> bool, time: nat, a: seq<A>, x: A)
    requires !Run(works, time, a).ok
    ensures Run(works, time, a + [x]) == Trial(a + [x], works(time + |a|, x))
  {
    RunConcat(works, time, a, [x]);
  }

  /** The candidates of a sequence of groups, group after group. */
  function Flatten<A>(groups: seq<seq<A>>): seq<A> {
    if groups == [] then [] else Flatten(groups[..|groups| - 1]) + groups[|groups| - 1]
  }

  lemma FlattenSnoc<A>(groups: seq<seq<A>>, i: nat)
    requires i < |groups|
    ensures Flatten(groups[..i + 1]) == Flatten(groups[..i]) + groups[i]
  {
    assert groups[..i + 1][..i] == groups[..i];
  }

  lemma {:induction false} FlattenAppend<A>(g: seq<seq<A>>, h: seq<seq<A>>)
    ensures Flatten(g + h) == Flatten(g) + Flatten(h)
    decreases |h|
  {
    if h == [] {
      assert g + h == g;
    } else {
      var m := |h| - 1;
      FlattenAppend(g, h[..m]);
      assert (g + h)[..|g + h| - 1] == g + h[..m];
    }
  }

  /** Groups of `n` candidates each flatten to `n` candidates per group. */
  lemma {:induction false} FlattenUniform<A>(groups: seq<seq<A>>, n: nat)
    requires forall i :: 0 <= i < |groups| ==> |groups[i]| == n
    ensures |Flatten(groups)| == n * |groups|
    decreases |groups|
  {
    if groups != [] {
      var m := |groups| - 1;
      FlattenUniform(groups[..m], n);
      assert n * |groups| == n * m + n;
    }
  }

  /** Group `i` sits in the flattened list behind the groups before it. */
  lemma FlattenSplit<A>(groups: seq<seq<A>>, i: nat)
    requires i < |groups|
    ensures Flatten(groups) == Flatten(groups[..i]) + groups[i] + Flatten(groups[i + 1..])
  {
    var front, back := groups[..i + 1], groups[i + 1..];
    assert front + back == groups;
    FlattenAppend(front, back);
    FlattenSnoc(groups, i);
  }

  /** Trying one more group after groups that all failed. */
  lemma GroupStep<A>(works: (nat, A) -> bool, time: nat, groups: seq<seq<A>>, i: nat)
    requires i < |groups|
    requires !Run(works, time, Flatten(groups[..i])).ok
    ensures var f := Flatten(groups[..i]);
      var u := Run(works, time + |f|, groups[i]);
      Run(works, time, Flatten(groups[..i + 1])) == Trial(f + u.made, u.ok)
  {
    FlattenSnoc(groups, i);
    RunConcat(works, time, Flatten(groups[..i]), groups[i]);
  }

  /** Once a group works, the groups after it are never tried. */
  lemma GroupsStop<A>(works: (nat, A) -> bool, time: nat, groups: seq<seq<A>>, i: nat)
    requires i < |groups|
    requires Run(works, time, Flatten(groups[..i + 1])).ok
    ensures Run(works, time, Flatten(groups)) == Run(works, time, Flatten(groups[..i + 1]))
  {
    FlattenAppend(groups[..i + 1], groups[i + 1..]);
    assert groups[..i + 1] + groups[i + 1..] == groups;
    RunConcat(works, time, Flatten(groups[..i + 1]), Flatten(groups[i + 1..]));
  }

  /**
   * The loop over groups, one group on: after the groups before `i` all
   * failed, either group `i` works and the whole trial is over, or the groups
   * up to `i` all failed.
   */
  lemma GroupAdvance<A>(works: (nat, A) -> bool, time: nat, groups: seq<seq<A>>, i: nat)
    requires i < |groups| && !Run(works, time, Flatten(groups[..i])).ok
    ensures var f := Flatten(groups[..i]);
      var u := Run(works, time + |f|, groups[i]);
      u.ok ==> Run(works, time, Flatten(groups)) == Trial(f + u.made, true)
    ensures var f := Flatten(groups[..i]);
      var u := Run(works, time + |f|, groups[i]);
      !u.ok ==> Flatten(groups[..i + 1]) == f + u.made && !Run(works, time, Flatten(groups[..i + 1])).ok
  {
    GroupStep(works, time, groups, i);
    FlattenSnoc(groups, i);
    if Run(works, time + |Flatten(groups[..i])|, groups[i]).ok {
      GroupsStop(works, time, groups, i);
    }
  }

  /** Trying the groups of `g + h` is trying those of `g`, then, if none worked, those of `h`. */
  lemma RunGroupsConcat<A>(works: (nat, A) -> bool, time: nat, g: seq<seq<A>>, h: seq<seq<A>>)
    ensures Run(works, time, Flatten(g + h)) ==
      Then(Run(works, time, Flatten(g)), Run(works, time + |Flatten(g)|, Flatten(h)))
  {
    FlattenAppend(g, h);
    RunConcat(works, time, Flatten(g), Flatten(h));
  }

  lemma AppendAssoc<A>(a: seq<A>, b: seq<A>, c: seq<A>)
    ensures a + b + c == a + (b + c)
  {
  }

  import opened Wrappers
}
