/** The in-place Fisher-Yates shuffle of card-battler/script.js.
    The random draw `Math.floor(Math.random() * (i + 1))` of step `i` is
    supplied by the caller as `picks[i]`, which must lie in `0..i`. */
module Shuffling {
  import opened Sequences

  /** `picks` supplies one swap index per position of an `n`-element array,
      each within the range the script's random draw can produce. Position 0
      is never a step of the loop, so `picks[0]` (necessarily 0) is unused. */
  predicate ValidPicks(picks: seq<nat>, n: nat) {
    |picks| == n && forall i :: 0 <= i < n ==> picks[i] <= i
  }

  /** Exchanging two positions, as the destructuring assignment does. */
  function Swap<T>(s: seq<T>, i: nat, j: nat): (r: seq<T>)
    requires i < |s| && j < |s|
    ensures |r| == |s| && r[i] == s[j] && r[j] == s[i]
    ensures forall k :: 0 <= k < |s| && k != i && k != j ==> r[k] == s[k]
    ensures multiset(r) == multiset(s)
  {
    s[i := s[j]][j := s[i]]
  }

  /** The steps of the loop for positions `hi - 1` down to 1, in that order:
      what the shuffle still has to do when its counter is `hi - 1`. Only the
      first `hi` positions move, and the result is a rearrangement. */
  function FisherYates<T>(s: seq<T>, picks: seq<nat>, hi: nat): (r: seq<T>)
    requires hi <= |s| && ValidPicks(picks, |s|)
    ensures |r| == |s| && multiset(r) == multiset(s)
    ensures r[hi..] == s[hi..]
    decreases hi
  {
    if hi <= 1 then s
    else FisherYates(Swap(s, hi - 1, picks[hi - 1]), picks, hi - 1)
  }

  /** The whole shuffle of `s` under the draws `picks`: a rearrangement of
      `s`, whatever the draws. */
  function Shuffled<T>(s: seq<T>, picks: seq<nat>): (r: seq<T>)
    requires ValidPicks(picks, |s|)
    ensures |r| == |s| && multiset(r) == multiset(s)
  {
    FisherYates(s, picks, |s|)
  }

  /** `shuffle(array)`: swaps `a[i]` with `a[picks[i]]` for `i` from the last
      index down to 1. */
  method Shuffle<T>(a: array<T>, picks: seq<nat>)
    requires ValidPicks(picks, a.Length)
    modifies a
    ensures a[..] == Shuffled(old(a[..]), picks)
    ensures multiset(a[..]) == multiset(old(a[..]))
  {
    var i := a.Length - 1;
    while i > 0
      invariant -1 <= i < a.Length
      invariant a.Length > 0 ==> 0 <= i
      invariant FisherYates(a[..], picks, i + 1) == Shuffled(old(a[..]), picks)
    {
      var j := picks[i];
      ghost var before := a[..];
      var t := a[i];
      a[i] := a[j];
      a[j] := t;
      assert a[..] == Swap(before, i, j);
      i := i - 1;
    }
  }

  /** The shuffle reads only the draws of the steps it still has to do. */
  lemma {:induction false} FisherYatesReadsPrefix<T>(s: seq<T>, p: seq<nat>, q: seq<nat>, hi: nat)
    requires hi <= |s| && ValidPicks(p, |s|) && ValidPicks(q, |s|)
    requires forall k :: 0 <= k < hi ==> p[k] == q[k]
    ensures FisherYates(s, p, hi) == FisherYates(s, q, hi)
    decreases hi
  {
    if hi > 1 {
      FisherYatesReadsPrefix(Swap(s, hi - 1, p[hi - 1]), p, q, hi - 1);
    }
  }

  /** Equal multisets of at most one element are equal sequences. */
  lemma ShortPrefixEqual<T>(s: seq<T>, t: seq<T>, hi: nat)
    requires hi <= 1 && hi <= |s| == |t|
    requires multiset(s[..hi]) == multiset(t[..hi]) && s[hi..] == t[hi..]
    ensures s == t
  {
    if hi == 1 {
      assert s[..1] == [s[0]] && t[..1] == [t[0]];
      assert s[0] in multiset(t[..1]);
    }
    assert s == s[..hi] + s[hi..] && t == t[..hi] + t[hi..];
  }

  /** A swap inside the first `hi` positions rearranges that prefix and
      leaves the rest alone. */
  lemma SwapWithinPrefix<T>(s: seq<T>, i: nat, j: nat, hi: nat)
    requires i < hi && j < hi && hi <= |s|
    ensures multiset(Swap(s, i, j)[..hi]) == multiset(s[..hi])
    ensures Swap(s, i, j)[hi..] == s[hi..]
  {
    assert Swap(s, i, j)[..hi] == Swap(s[..hi], i, j);
  }

  /** Bringing the card that `t` wants at position `hi - 1` there by one swap
      leaves a problem of the same shape on the first `hi - 1` positions. */
  lemma SwapIntoPlace<T>(s: seq<T>, t: seq<T>, hi: nat, j: nat)
    requires 2 <= hi <= |s| == |t| && j < hi
    requires multiset(s[..hi]) == multiset(t[..hi]) && s[hi..] == t[hi..]
    requires s[j] == t[hi - 1]
    ensures var s' := Swap(s, hi - 1, j);
      multiset(s'[..hi - 1]) == multiset(t[..hi - 1]) && s'[hi - 1..] == t[hi - 1..]
  {
    var last := hi - 1;
    var s' := Swap(s, last, j);
    SwapWithinPrefix(s, last, j, hi);
    SplitAtLast(s', hi);
    SplitAtLast(t, hi);
    MultisetCancel(s'[..last], t[..last], t[last]);
  }

  /** The element at `hi - 1` separates the first `hi` positions from the
      rest. */
  lemma SplitAtLast<T>(x: seq<T>, hi: nat)
    requires 1 <= hi <= |x|
    ensures x[..hi] == x[..hi - 1] + [x[hi - 1]]
    ensures x[hi - 1..] == [x[hi - 1]] + x[hi..]
  {
  }

  lemma MultisetCancel<T>(a: seq<T>, b: seq<T>, x: T)
    requires multiset(a + [x]) == multiset(b + [x])
    ensures multiset(a) == multiset(b)
  {
    assert multiset(a) == multiset(a + [x]) - multiset{x};
    assert multiset(b) == multiset(b + [x]) - multiset{x};
  }

  /** A card that the first `hi` positions of `t` hold at `hi - 1` is found
      among the first `hi` positions of `s`. */
  lemma FindInPrefix<T>(s: seq<T>, t: seq<T>, hi: nat) returns (j: nat)
    requires 1 <= hi <= |s| && hi <= |t|
    requires multiset(s[..hi]) == multiset(t[..hi])
    ensures j < hi && s[j] == t[hi - 1]
  {
    assert t[..hi][hi - 1] == t[hi - 1];
    assert t[hi - 1] in multiset(s[..hi]);
    var k :| 0 <= k < hi && s[..hi][k] == t[hi - 1];
    j := k;
  }

  /** Fixing the draw of step `last` keeps the draws valid and leaves the
      earlier draws as they were. */
  lemma SetPick(rest: seq<nat>, n: nat, last: nat, j: nat)
    requires ValidPicks(rest, n) && j <= last < n
    ensures ValidPicks(rest[last := j], n)
    ensures forall k :: 0 <= k < last ==> rest[last := j][k] == rest[k]
  {
  }

  /** Draws that produce `t` from `s` when only the first `hi` positions
      may still move and they hold the same cards as in `t`. */
  lemma {:induction false} PicksFor<T>(s: seq<T>, t: seq<T>, hi: nat) returns (picks: seq<nat>)
    requires hi <= |s| == |t|
    requires multiset(s[..hi]) == multiset(t[..hi]) && s[hi..] == t[hi..]
    ensures ValidPicks(picks, |s|) && FisherYates(s, picks, hi) == t
    decreases hi
  {
    if hi <= 1 {
      picks := seq(|s|, k => 0);
      ShortPrefixEqual(s, t, hi);
    } else {
      var last := hi - 1;
      var j := FindInPrefix(s, t, hi);
      SwapIntoPlace(s, t, hi, j);
      var s' := Swap(s, last, j);
      var rest := PicksFor(s', t, last);
      SetPick(rest, |s|, last, j);
      picks := rest[last := j];
      FisherYatesReadsPrefix(s', picks, rest, last);
    }
  }

  /** Every rearrangement of the deck is the outcome of some sequence of
      draws: no order of the cards is out of the shuffle's reach. */
  lemma EveryOrderReachable<T>(s: seq<T>, t: seq<T>)
    requires multiset(s) == multiset(t)
    ensures exists picks :: ValidPicks(picks, |s|) && Shuffled(s, picks) == t
  {
    assert |s| == |multiset(s)| == |t|;
    assert s[..|s|] == s && t[..|t|] == t;
    var picks := PicksFor(s, t, |s|);
  }

  /** Swapping two positions of a sequence without repetitions leaves it
      without repetitions. */
  lemma SwapDistinct<T>(s: seq<T>, i: nat, j: nat)
    requires Distinct(s) && i < |s| && j < |s|
    ensures Distinct(Swap(s, i, j))
  {
    var r := Swap(s, i, j);
    forall a, b | 0 <= a < b < |r| ensures r[a] != r[b] {
      var a' := if a == i then j else if a == j then i else a;
      var b' := if b == i then j else if b == j then i else b;
      assert r[a] == s[a'] && r[b] == s[b'] && a' != b';
    }
  }

  /** The first step of the steps below `hi` places `s[picks[hi - 1]]` at
      position `hi - 1`, and no later step moves it. */
  lemma LastPlaced<T>(s: seq<T>, picks: seq<nat>, hi: nat)
    requires 2 <= hi <= |s| && ValidPicks(picks, |s|)
    ensures FisherYates(s, picks, hi)[hi - 1] == s[picks[hi - 1]]
  {
    var last := hi - 1;
    var s' := Swap(s, last, picks[last]);
    assert FisherYates(s, picks, hi) == FisherYates(s', picks, last);
    assert FisherYates(s', picks, last)[last..] == s'[last..];
    assert FisherYates(s', picks, last)[last] == FisherYates(s', picks, last)[last..][0];
  }

  /** On cards that are all different, the outcome of the steps below `hi`
      tells which draws those steps used. */
  lemma {:induction false} FisherYatesInjective<T>(s: seq<T>, p: seq<nat>, q: seq<nat>, hi: nat)
    requires hi <= |s| && ValidPicks(p, |s|) && ValidPicks(q, |s|) && Distinct(s)
    requires FisherYates(s, p, hi) == FisherYates(s, q, hi)
    ensures forall k :: 0 <= k < hi ==> p[k] == q[k]
    decreases hi
  {
    if hi == 1 {
      assert p[0] == 0 == q[0];
    } else if hi > 1 {
      var last := hi - 1;
      LastPlaced(s, p, hi);
      LastPlaced(s, q, hi);
      assert p[last] == q[last];
      var s' := Swap(s, last, p[last]);
      assert FisherYates(s, p, hi) == FisherYates(s', p, last);
      assert FisherYates(s, q, hi) == FisherYates(s', q, last);
      SwapDistinct(s, last, p[last]);
      FisherYatesInjective(s', p, q, last);
      AgreeOneMore(p, q, last);
    }
  }

  /** Draws that agree below `last` and at `last` agree up to `last`. */
  lemma AgreeOneMore(p: seq<nat>, q: seq<nat>, last: nat)
    requires last < |p| && last < |q| && p[last] == q[last]
    requires forall k :: 0 <= k < last ==> p[k] == q[k]
    ensures forall k :: 0 <= k <= last ==> p[k] == q[k]
  {
  }

  /** On cards that are all different, each order comes from exactly one
      sequence of valid draws. Together with `EveryOrderReachable` this
      pairs the orders one to one with the draw sequences, so uniform draws
      give every order the same chance. */
  lemma ShuffledInjective<T>(s: seq<T>, p: seq<nat>, q: seq<nat>)
    requires Distinct(s) && ValidPicks(p, |s|) && ValidPicks(q, |s|)
    requires Shuffled(s, p) == Shuffled(s, q)
    ensures p == q
  {
    FisherYatesInjective(s, p, q, |s|);
  }
}
