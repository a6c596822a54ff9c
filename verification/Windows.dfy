/** Times of admitted calls, and how many of them fall into a window. */
module Windows {

  /** The times in `log` that are at or after `lo`, in order. */
  function Recent(log: seq<real>, lo: real): (r: seq<real>)
    ensures forall t :: t in r <==> t in log && lo <= t
    ensures |r| <= |log|
  {
    if log == [] then []
    else if lo <= log[0] then [log[0]] + Recent(log[1..], lo)
    else Recent(log[1..], lo)
  }

  /** How many times of `log` lie at or after `lo`. */
  function CountFrom(log: seq<real>, lo: real): nat {
    if log == [] then 0
    else CountFrom(log[..|log| - 1], lo) + if lo <= log[|log| - 1] then 1 else 0
  }

  /** How many times of `log` lie in the closed interval [lo, hi]. */
  function CountIn(log: seq<real>, lo: real, hi: real): nat {
    if log == [] then 0
    else CountIn(log[..|log| - 1], lo, hi) + if lo <= log[|log| - 1] <= hi then 1 else 0
  }

  ghost predicate Sorted(log: seq<real>) {
    forall i, j :: 0 <= i <= j < |log| ==> log[i] <= log[j]
  }

  ghost predicate UpTo(log: seq<real>, clock: real) {
    forall i :: 0 <= i < |log| ==> log[i] <= clock
  }

  /** Every entry found fewer than `limit` earlier entries in the window that ends at it. */
  ghost predicate Paced(log: seq<real>, window: real, limit: int) {
    log == [] ||
    (var n := |log| - 1;
     Paced(log[..n], window, limit) && CountFrom(log[..n], log[n] - window) < limit)
  }

  function AtLeastZero(x: int): nat { if x < 0 then 0 else x }

  lemma {:induction false} CountInAtMostCountFrom(log: seq<real>, lo: real, hi: real)
    ensures CountIn(log, lo, hi) <= CountFrom(log, lo)
  {
    if log != [] { CountInAtMostCountFrom(log[..|log| - 1], lo, hi); }
  }

  lemma {:induction false} CountInIsCountFrom(log: seq<real>, lo: real, hi: real)
    requires UpTo(log, hi)
    ensures CountIn(log, lo, hi) == CountFrom(log, lo)
  {
    if log != [] { CountInIsCountFrom(log[..|log| - 1], lo, hi); }
  }

  lemma {:induction false} CountFromAntitone(log: seq<real>, lo: real, lo': real)
    requires lo <= lo'
    ensures CountFrom(log, lo') <= CountFrom(log, lo)
  {
    if log != [] { CountFromAntitone(log[..|log| - 1], lo, lo'); }
  }

  lemma {:induction false} CountFromNone(log: seq<real>, lo: real)
    requires forall i :: 0 <= i < |log| ==> log[i] < lo
    ensures CountFrom(log, lo) == 0
  {
    if log != [] { CountFromNone(log[..|log| - 1], lo); }
  }

  lemma CountFromSnoc(log: seq<real>, t: real, lo: real)
    ensures CountFrom(log + [t], lo) == CountFrom(log, lo) + if lo <= t then 1 else 0
  {
  }

  lemma {:induction false} CountFromCons(log: seq<real>, lo: real)
    requires log != []
    ensures CountFrom(log, lo) == CountFrom(log[1..], lo) + if lo <= log[0] then 1 else 0
  {
    if |log| > 1 {
      var n := |log| - 1;
      CountFromCons(log[..n], lo);
      assert log[1..][..n - 1] == log[..n][1..];
    } else {
      assert log[1..] == [];
    }
  }

  lemma {:induction false} RecentLength(log: seq<real>, lo: real)
    ensures |Recent(log, lo)| == CountFrom(log, lo)
  {
    if log != [] {
      CountFromCons(log, lo);
      RecentLength(log[1..], lo);
    }
  }

  /** A paced log never holds more than `limit` entries in any closed interval as long as the window. */
  lemma {:induction false} PacedBound(log: seq<real>, window: real, limit: int, a: real)
    requires Paced(log, window, limit)
    ensures CountIn(log, a, a + window) <= AtLeastZero(limit)
  {
    if log != [] {
      var n := |log| - 1;
      PacedBound(log[..n], window, limit, a);
      if a <= log[n] <= a + window {
        CountInAtMostCountFrom(log[..n], a, a + window);
        CountFromAntitone(log[..n], log[n] - window, a);
      }
    }
  }

  lemma PacedSnoc(log: seq<real>, t: real, window: real, limit: int)
    requires Paced(log, window, limit) && CountFrom(log, t - window) < limit
    ensures Paced(log + [t], window, limit)
  {
  }

  lemma {:induction false} CountInAppend(a: seq<real>, b: seq<real>, lo: real, hi: real)
    ensures CountIn(a + b, lo, hi) == CountIn(a, lo, hi) + CountIn(b, lo, hi)
  {
    if b == [] {
      assert a + b == a;
    } else {
      CountInAppend(a, b[..|b| - 1], lo, hi);
      assert (a + b)[..|a + b| - 1] == a + b[..|b| - 1];
    }
  }

  lemma Regroup(a: seq<real>, b: seq<real>, c: seq<real>)
    ensures a + (b + c) == (a + b) + c
  {
  }

  /** The same time `n` times. */
  function Times(t: real, n: nat): (s: seq<real>)
    ensures |s| == n && forall i :: 0 <= i < n ==> s[i] == t
  {
    seq(n, i => t)
  }

  lemma {:induction false} TimesCount(t: real, n: nat, lo: real, hi: real)
    ensures CountIn(Times(t, n), lo, hi) == if lo <= t <= hi then n else 0
  {
    if n > 0 {
      TimesCount(t, n - 1, lo, hi);
      assert Times(t, n)[..n - 1] == Times(t, n - 1);
    }
  }
}
