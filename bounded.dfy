/** Clamped integer arithmetic and the newest-first, capacity-bounded logs
    used for endpoint timelines and for the global event log: a log is grown
    by putting the new entry in front (`unshift`) and then cut back to its
    capacity (`slice(0, cap)`), so the oldest entries fall off the end. */
module Bounded {

  function Min(a: int, b: int): int { if a < b then a else b }

  function Max(a: int, b: int): int { if a < b then b else a }

  /** Put `x` in front of the newest-first log `s`, then keep the first `cap` entries. */
  function Push<T>(s: seq<T>, x: T, cap: nat): (r: seq<T>)
    ensures |r| == Min(|s| + 1, cap)
    ensures cap > 0 ==> r[0] == x && r[1..] == s[..Min(|s|, cap - 1)]
  {
    var t := [x] + s;
    if |t| > cap then t[..cap] else t
  }

  /** Push every entry of `xs` onto `s`, first entry first. */
  function PushAll<T>(s: seq<T>, xs: seq<T>, cap: nat): seq<T>
    decreases |xs|
  {
    if xs == [] then s else Push(PushAll(s, xs[..|xs| - 1], cap), xs[|xs| - 1], cap)
  }

  function Reversed<T>(xs: seq<T>): (r: seq<T>)
    ensures |r| == |xs|
    ensures forall i :: 0 <= i < |xs| ==> r[i] == xs[|xs| - 1 - i]
    decreases |xs|
  {
    if xs == [] then [] else [xs[|xs| - 1]] + Reversed(xs[..|xs| - 1])
  }

  /** Pushing `xs` onto `s` one by one puts them, newest first, in front of
      `s`, and keeps the first `cap` entries of the whole. */
  lemma {:induction false} PushAllNewestFirst<T>(s: seq<T>, xs: seq<T>, cap: nat)
    requires |s| <= cap
    ensures PushAll(s, xs, cap) == (Reversed(xs) + s)[..Min(cap, |xs| + |s|)]
    decreases |xs|
  {
    if xs != [] {
      var init, x := xs[..|xs| - 1], xs[|xs| - 1];
      PushAllNewestFirst(s, init, cap);
      var p := PushAll(s, init, cap);
      var m := Min(cap, |xs| + |s|);
      assert Reversed(xs) == [x] + Reversed(init);
      var want := (Reversed(xs) + s)[..m];
      var got := Push(p, x, cap);
      assert |got| == m;
      forall i | 0 <= i < m
        ensures got[i] == want[i]
      {
        if i > 0 {
          assert got[i] == p[i - 1];
        }
      }
      assert got == want;
    }
  }

  /** Appending to the batch is pushing after the shorter batch. */
  lemma {:induction false} PushAllAppend<T>(s: seq<T>, xs: seq<T>, ys: seq<T>, cap: nat)
    ensures PushAll(s, xs + ys, cap) == PushAll(PushAll(s, xs, cap), ys, cap)
    decreases |ys|
  {
    if ys == [] {
      assert xs + ys == xs;
    } else {
      var init := ys[..|ys| - 1];
      assert (xs + ys)[..|xs + ys| - 1] == xs + init;
      assert (xs + ys)[|xs + ys| - 1] == ys[|ys| - 1];
      PushAllAppend(s, xs, init, cap);
    }
  }

  /** Once a batch of at most `cap` entries is pushed onto a log within its
      capacity, the front of the log holds exactly that batch, newest first. */
  lemma PushAllFront<T>(s: seq<T>, xs: seq<T>, cap: nat)
    requires |s| <= cap && |xs| <= cap
    ensures |PushAll(s, xs, cap)| == Min(cap, |xs| + |s|)
    ensures PushAll(s, xs, cap)[..|xs|] == Reversed(xs)
  {
    PushAllNewestFirst(s, xs, cap);
  }
}
