/** The linear scans behind the navigation queries: reading a navigation
    list, `indexOf`, the slide scan of selectTarget (which releases every slide
    it passes over) and the group scan of selectGroup (which stops early). */
module Scan {
  import opened Types

  /** JavaScript's `xs[i]`. An index outside the list reads `undefined`, which
      the scans below compare exactly as they compare a negative id (`undefined
      >= 0` is false), so it is modelled as -1. */
  function Lookup(xs: seq<int>, i: int): (v: int)
    ensures 0 <= i < |xs| ==> v == xs[i]
    ensures !(0 <= i < |xs|) ==> v < 0
  {
    if 0 <= i < |xs| then xs[i] else -1
  }

  /** JavaScript's `Array.prototype.indexOf`: the first position holding `v`, or -1. */
  function IndexOf(xs: seq<int>, v: int): (r: int)
    ensures -1 <= r < |xs|
    ensures r == -1 <==> v !in xs
    ensures r >= 0 ==> xs[r] == v && forall j :: 0 <= j < r ==> xs[j] != v
  {
    if |xs| == 0 then -1
    else if xs[0] == v then 0
    else
      var k := IndexOf(xs[1..], v);
      if k == -1 then -1 else k + 1
  }

  /** `xs` lists every position 0 .. n-1 exactly once. */
  predicate IsPermutation(xs: seq<int>, n: int)
  {
    |xs| == n &&
    (forall i :: 0 <= i < |xs| ==> 0 <= xs[i] < n) &&
    (forall i, j :: 0 <= i < j < |xs| ==> xs[i] != xs[j])
  }

  /** In a permutation, `indexOf` undoes the lookup: the position found for the
      entry at `c` is `c` itself. */
  lemma IndexOfPermutation(xs: seq<int>, n: int, c: int)
    requires IsPermutation(xs, n) && 0 <= c < n
    ensures IndexOf(xs, xs[c]) == c
  {
  }

  /** The test selectTarget applies to each slide. */
  predicate SlideMatches(s: Slide, uid: int)
  {
    uid >= 0 && s.uid == uid
  }

  /** The test selectGroup applies to each group. */
  predicate GroupMatches(g: Group, id: int)
  {
    id >= 0 && g.uid == id
  }

  /** The index selectTarget settles on: its scan does not stop, so a later
      match overrides an earlier one, and -1 stands for "no match". */
  function LastMatch(objs: seq<Slide>, uid: int): (r: int)
    ensures -1 <= r < |objs|
    ensures r >= 0 ==> SlideMatches(objs[r], uid) &&
                       forall j :: r < j < |objs| ==> !SlideMatches(objs[j], uid)
    ensures r == -1 ==> forall j :: 0 <= j < |objs| ==> !SlideMatches(objs[j], uid)
  {
    if |objs| == 0 then -1
    else if SlideMatches(objs[|objs| - 1], uid) then |objs| - 1
    else LastMatch(objs[..|objs| - 1], uid)
  }

  /** The index selectGroup settles on: its scan stops at the first match. */
  function FirstMatch(gs: seq<Group>, id: int): (r: int)
    ensures -1 <= r < |gs|
    ensures r >= 0 ==> GroupMatches(gs[r], id) &&
                       forall j :: 0 <= j < r ==> !GroupMatches(gs[j], id)
    ensures r == -1 ==> forall j :: 0 <= j < |gs| ==> !GroupMatches(gs[j], id)
  {
    if |gs| == 0 then -1
    else if GroupMatches(gs[0], id) then 0
    else
      var k := FirstMatch(gs[1..], id);
      if k == -1 then -1 else k + 1
  }

  /** With positional uids, the slide selectTarget finds for `uid` is the one at
      position `uid`, and there is none exactly when `uid` is out of range. */
  lemma LastMatchPositional(objs: seq<Slide>, uid: int)
    requires SlidesPositional(objs)
    ensures LastMatch(objs, uid) == if 0 <= uid < |objs| then uid else -1
  {
  }

  /** With positional uids, the group selectGroup finds for `id` is the one at
      position `id`, and there is none exactly when `id` is out of range. */
  lemma FirstMatchPositional(gs: seq<Group>, id: int)
    requires GroupsPositional(gs)
    ensures FirstMatch(gs, id) == if 0 <= id < |gs| then id else -1
  {
    if 0 <= id < |gs| {
      assert GroupMatches(gs[id], id);
    }
  }

  /** The releaseDemo calls selectTarget makes while scanning `objs` for `uid`. */
  function Releases(objs: seq<Slide>, uid: int): (log: seq<Hook>)
    ensures |log| <= |objs|
    ensures forall k :: 0 <= k < |log| ==> log[k].Released?
  {
    if |objs| == 0 then []
    else
      var prev := Releases(objs[..|objs| - 1], uid);
      if SlideMatches(objs[|objs| - 1], uid) then prev else prev + [Released(|objs| - 1)]
  }

  /** selectTarget releases exactly the slides that do not match `uid`, each
      once, in registry order. */
  lemma {:induction false} ReleasesExactlyNonMatching(objs: seq<Slide>, uid: int)
    ensures var log := Releases(objs, uid);
            (forall k :: 0 <= k < |log| ==>
               log[k].Released? && 0 <= log[k].at < |objs| && !SlideMatches(objs[log[k].at], uid)) &&
            (forall i :: 0 <= i < |objs| && !SlideMatches(objs[i], uid) ==> Released(i) in log) &&
            (forall k, l :: 0 <= k < l < |log| ==> log[k].at < log[l].at)
  {
    if |objs| > 0 {
      var init := objs[..|objs| - 1];
      assert forall i :: 0 <= i < |init| ==> init[i] == objs[i];
      ReleasesExactlyNonMatching(init, uid);
    }
  }

  /** releaseDemo called on the slides at positions lo .. hi-1, in that order. */
  function ReleaseRange(lo: int, hi: int): seq<Hook>
    requires lo <= hi
  {
    seq(hi - lo, k => Released(lo + k))
  }

  /** With no slide matching, selectTarget releases every slide, exactly as
      releaseDemos does. */
  lemma {:induction false} ReleasesWithoutMatch(objs: seq<Slide>, uid: int)
    requires forall i :: 0 <= i < |objs| ==> !SlideMatches(objs[i], uid)
    ensures Releases(objs, uid) == ReleaseRange(0, |objs|)
  {
    if |objs| > 0 {
      var init := objs[..|objs| - 1];
      assert forall i :: 0 <= i < |init| ==> init[i] == objs[i];
      ReleasesWithoutMatch(init, uid);
    }
  }

  /** Releasing up to `hi` and then the slide at `hi` releases up to `hi + 1`. */
  lemma ReleaseRangeSnoc(lo: int, hi: int)
    requires lo <= hi
    ensures ReleaseRange(lo, hi) + [Released(hi)] == ReleaseRange(lo, hi + 1)
  {
  }

  /** With positional uids and `uid` in range, selectTarget releases every slide
      except the one at position `uid`, in registry order. */
  lemma {:induction false} ReleasesPositional(objs: seq<Slide>, uid: int)
    requires SlidesPositional(objs) && 0 <= uid < |objs|
    ensures Releases(objs, uid) == ReleaseRange(0, uid) + ReleaseRange(uid + 1, |objs|)
  {
    var n := |objs| - 1;
    var init := objs[..n];
    assert SlidesPositional(init);
    if uid == n {
      assert SlideMatches(objs[n], uid);
      assert Releases(objs, uid) == Releases(init, uid);
      assert forall i :: 0 <= i < |init| ==> !SlideMatches(init[i], uid);
      ReleasesWithoutMatch(init, uid);
      assert ReleaseRange(uid + 1, |objs|) == [];
    } else {
      assert !SlideMatches(objs[n], uid);
      assert Releases(objs, uid) == Releases(init, uid) + [Released(n)];
      ReleasesPositional(init, uid);
      ReleaseRangeSnoc(uid + 1, n);
      assert Releases(objs, uid) == ReleaseRange(0, uid) + (ReleaseRange(uid + 1, n) + [Released(n)]);
    }
  }
}
