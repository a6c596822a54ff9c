/** Strings: trimming, lower case, cutting at a separator, and decimal numerals. */
module Text {

  /** Without slashes at the end. */
  function StripRight(s: string): string {
    if s != [] && s[|s| - 1] == '/' then StripRight(s[..|s| - 1]) else s
  }

  function Slashes(n: nat): (s: string)
    ensures |s| == n && forall i :: 0 <= i < n ==> s[i] == '/'
  {
    seq(n, _ => '/')
  }

  lemma {:induction false} StripRightAll(s: string, n: nat)
    requires s == [] || s[|s| - 1] != '/'
    ensures StripRight(s + Slashes(n)) == s
  {
    if n == 0 {
      assert s + Slashes(n) == s;
    } else {
      var t := s + Slashes(n);
      assert t[|t| - 1] == '/' && t[..|t| - 1] == s + Slashes(n - 1);
      StripRightAll(s, n - 1);
    }
  }

  /** What is left does not end in a slash, and slashes are all that is gone. */
  lemma {:induction false} StripRightIs(s: string)
    ensures var r := StripRight(s);
            |r| <= |s| && s == r + Slashes(|s| - |r|) && (r == [] || r[|r| - 1] != '/')
  {
    if s != [] && s[|s| - 1] == '/' {
      StripRightIs(s[..|s| - 1]);
      assert s == s[..|s| - 1] + ['/'];
    } else {
      assert s + Slashes(0) == s;
    }
  }

  /** ASCII letters only. */
  function LowerChar(c: char): char {
    if 'A' <= c <= 'Z' then (c as int + 32) as char else c
  }

  /** A string splits in one way at its first separator. */
  lemma FirstCut(a: string, b: string, a': string, b': string, sep: char)
    requires a + [sep] + b == a' + [sep] + b'
    requires sep !in a && sep !in a'
    ensures a == a' && b == b'
  {
    var s := a + [sep] + b;
    assert s[|a|] == sep && s[|a'|] == sep;
    assert forall i :: 0 <= i < |a| ==> s[i] == a[i] && a[i] != sep;
    assert forall i :: 0 <= i < |a'| ==> s[i] == a'[i] && a'[i] != sep;
    assert a == s[..|a|] == a';
    assert b == s[|a| + 1..] == b';
  }

  /** A string splits in one way at its last separator. */
  lemma LastCut(a: string, b: string, a': string, b': string, sep: char)
    requires a + [sep] + b == a' + [sep] + b'
    requires sep !in b && sep !in b'
    ensures a == a' && b == b'
  {
    var s := a + [sep] + b;
    assert s[|a|] == sep && s[|a'|] == sep;
    forall j | |a| < j < |s| ensures s[j] != sep { assert s[j] == b[j - |a| - 1]; }
    forall j | |a'| < j < |s| ensures s[j] != sep { assert s[j] == b'[j - |a'| - 1]; }
    assert a == s[..|a|] == a';
    assert b == s[|a| + 1..] == b';
  }

  function Digit(d: nat): char
    requires d < 10
  {
    "0123456789"[d]
  }

  function NatText(n: nat): string {
    if n < 10 then [Digit(n)] else NatText(n / 10) + [Digit(n % 10)]
  }

  function IntText(n: int): string {
    if n < 0 then ['-'] + NatText(-n) else NatText(n)
  }

  lemma {:induction false} NatTextDigits(n: nat)
    ensures NatText(n) != [] && forall c :: c in NatText(n) ==> c in "0123456789"
  {
    if n >= 10 { NatTextDigits(n / 10); }
  }

  lemma {:induction false} NatTextInjective(m: nat, n: nat)
    requires NatText(m) == NatText(n)
    ensures m == n
  {
    NatTextDigits(m / 10);
    NatTextDigits(n / 10);
    var s := NatText(m);
    if m >= 10 && n >= 10 {
      assert s[..|s| - 1] == NatText(m / 10) == NatText(n / 10);
      NatTextInjective(m / 10, n / 10);
    }
    assert s[|s| - 1] == Digit(m % 10) == Digit(n % 10);
  }

  /** Numerals tell integers apart and hold no separator. */
  lemma IntTextInjective(m: int, n: int)
    requires IntText(m) == IntText(n)
    ensures m == n
  {
    IntTextSign(m);
    IntTextSign(n);
    if m < 0 {
      assert IntText(m)[1..] == NatText(-m) && IntText(n)[1..] == NatText(-n);
      NatTextInjective(-m, -n);
    } else {
      NatTextInjective(m, n);
    }
  }

  lemma IntTextSign(n: int)
    ensures IntText(n) != [] && (IntText(n)[0] == '-' <==> n < 0)
  {
    NatTextDigits(if n < 0 then -n else n);
    if 0 <= n { assert IntText(n)[0] in NatText(n); }
  }

  lemma IntTextNoColon(n: int)
    ensures ':' !in IntText(n)
  {
    NatTextDigits(if n < 0 then -n else n);
  }
}
