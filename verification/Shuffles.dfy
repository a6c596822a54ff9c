/** The same elements in another order. */
module Shuffles {

  ghost predicate Shuffled<T>(a: seq<T>, b: seq<T>) { multiset(a) == multiset(b) }

  ghost predicate NoDup<T>(s: seq<T>) {
    forall i, j :: 0 <= i < j < |s| ==> s[i] != s[j]
  }

  lemma {:induction false} CountNoDup<T>(s: seq<T>, x: T)
    requires NoDup(s)
    ensures multiset(s)[x] == if x in s then 1 else 0
  {
    if s != [] {
      assert s == [s[0]] + s[1..];
      CountNoDup(s[1..], x);
    }
  }

  lemma CountTwice<T>(s: seq<T>, i: nat, j: nat)
    requires i < j < |s| && s[i] == s[j]
    ensures 2 <= multiset(s)[s[i]]
  {
    assert s == s[..j] + [s[j]] + s[j + 1..];
    assert s[..j][i] == s[i];
    assert s[i] in multiset(s[..j]);
  }

  /** An order of the same elements has the same length and members, and repeats none if the other repeats none. */
  lemma ShuffledMembers<T>(a: seq<T>, b: seq<T>)
    requires Shuffled(a, b)
    ensures |a| == |b| && forall x :: x in a <==> x in b
    ensures NoDup(a) ==> NoDup(b)
  {
    assert |a| == |multiset(a)| && |b| == |multiset(b)|;
    forall x ensures x in a <==> x in b {
      assert x in a <==> x in multiset(a);
      assert x in b <==> x in multiset(b);
    }
    if NoDup(a) {
      forall i, j | 0 <= i < j < |b| ensures b[i] != b[j] {
        if b[i] == b[j] {
          CountTwice(b, i, j);
          CountNoDup(a, b[i]);
        }
      }
    }
  }

  /** Without repetitions, an equally long sequence of members is an order of all of them. */
  lemma MembersShuffled<T>(a: seq<T>, b: seq<T>)
    requires NoDup(a) && NoDup(b) && |a| == |b| && forall x :: x in b ==> x in a
    ensures Shuffled(a, b)
  {
    forall x ensures multiset(b)[x] <= multiset(a)[x] {
      CountNoDup(a, x);
      CountNoDup(b, x);
    }
    assert multiset(b) <= multiset(a);
    assert |multiset(a) - multiset(b)| == 0;
    assert multiset(a) == (multiset(a) - multiset(b)) + multiset(b);
  }

  function MoveLast<T>(s: seq<T>, i: nat): (r: seq<T>)
    requires i < |s|
    ensures |r| == |s| && r[|r| - 1] == s[i]
  {
    s[..i] + s[i + 1..] + [s[i]]
  }

  lemma MoveLastShuffles<T>(s: seq<T>, i: nat)
    requires i < |s|
    ensures Shuffled(s, MoveLast(s, i))
  {
    assert s == s[..i] + [s[i]] + s[i + 1..];
  }
}
