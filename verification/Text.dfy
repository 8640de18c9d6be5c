/** The string operations the emulator relies on: substring search, split, trim,
    byte-wise order and decimal numerals. */
module Text {

  /** sep occurs in s at position j. */
  predicate At(s: string, sep: string, j: nat)
  {
    j + |sep| <= |s| && s[j..j + |sep|] == sep
  }

  lemma AtChar(s: string, sep: string, j: nat, i: nat)
    requires At(s, sep, j) && i < |sep|
    ensures s[j + i] == sep[i]
  {
  }

  predicate Occurs(s: string, sep: string)
  {
    exists j: nat :: j <= |s| && At(s, sep, j)
  }

  /** First occurrence of sep in s at or after position from, or -1. */
  function Find(s: string, sep: string, from: nat): (i: int)
    requires from <= |s|
    ensures i == -1 || (from <= i <= |s| && At(s, sep, i))
    ensures forall j: nat :: from <= j <= |s| && (i == -1 || j < i) ==> !At(s, sep, j)
    decreases |s| - from
  {
    if At(s, sep, from) then from
    else if from == |s| then -1
    else Find(s, sep, from + 1)
  }

  /** strings.Split for a non-empty separator. */
  function Split(s: string, sep: string): (parts: seq<string>)
    requires sep != ""
    ensures parts != []
    ensures |parts| == 1 <==> !Occurs(s, sep)
    decreases |s|
  {
    var i := Find(s, sep, 0);
    if i == -1 then [s] else [s[..i]] + Split(s[i + |sep|..], sep)
  }

  function TrimLeft(s: string, c: char): (t: string)
    ensures t == "" || t[0] != c
  {
    if s != "" && s[0] == c then TrimLeft(s[1..], c) else s
  }

  function TrimRight(s: string, c: char): (t: string)
    ensures t == "" || t[|t| - 1] != c
    ensures t <= s
  {
    if s != "" && s[|s| - 1] == c then TrimRight(s[..|s| - 1], c) else s
  }

  /** strings.Trim with a one-character cut set. */
  function Trim(s: string, c: char): string
  {
    TrimRight(TrimLeft(s, c), c)
  }

  /** No c at either end. */
  predicate Bare(s: string, c: char)
  {
    s == "" || (s[0] != c && s[|s| - 1] != c)
  }

  /** Quoting with c and trimming c gives the text back exactly when it is bare. */
  lemma TrimQuoted(v: string, c: char)
    ensures Trim([c] + v + [c], c) == v <==> Bare(v, c)
  {
    var q := [c] + v + [c];
    assert q[1..] == v + [c];
    assert TrimLeft(q, c) == TrimLeft(v + [c], c);
    if v == "" {
      assert (v + [c])[1..] == "";
      assert TrimLeft(v + [c], c) == "";
    } else if v[0] != c {
      assert TrimLeft(v + [c], c) == v + [c];
      assert (v + [c])[..|v|] == v;
      assert TrimRight(v + [c], c) == TrimRight(v, c);
    } else {
      var t := Trim(q, c);
      var l := TrimLeft(q, c);
      assert t <= l;
      assert t == "" || t[0] == l[0] != c;
    }
  }

  /** Byte-wise (lexicographic) order of strings. */
  predicate Less(a: string, b: string)
  {
    if b == "" then false
    else if a == "" then true
    else if a[0] != b[0] then a[0] < b[0]
    else Less(a[1..], b[1..])
  }

  lemma {:induction false} LessTotal(a: string, b: string)
    ensures a != b ==> Less(a, b) || Less(b, a)
    ensures !(Less(a, b) && Less(b, a))
    ensures !Less(a, a)
  {
    if a != "" {
      LessTotal(a[1..], a[1..]);
    }
    if a != "" && b != "" && a[0] == b[0] {
      LessTotal(a[1..], b[1..]);
      assert a == [a[0]] + a[1..] && b == [b[0]] + b[1..];
    }
  }

  lemma {:induction false} LessTransitive(a: string, b: string, c: string)
    requires Less(a, b) && Less(b, c)
    ensures Less(a, c)
  {
    if a != "" && a[0] == b[0] == c[0] {
      LessTransitive(a[1..], b[1..], c[1..]);
    }
  }

  /** The strings that start with p are exactly an interval of the order: they are
      not below p, and once the order has left them it does not come back. */
  lemma {:induction false} PrefixInterval(p: string, k: string, k': string)
    ensures p <= k ==> !Less(k, p)
    ensures !Less(k, p) && !(p <= k) && Less(k, k') ==> !(p <= k')
  {
    if p != "" && k != "" && p[0] == k[0] {
      assert p == [p[0]] + p[1..] && k == [k[0]] + k[1..];
      assert p <= k <==> p[1..] <= k[1..] by {
        if p <= k { assert p[1..] == k[1..|p|] == k[1..][..|p| - 1]; }
        if p[1..] <= k[1..] { assert k[..|p|] == [k[0]] + k[1..][..|p| - 1]; }
      }
      if k' != "" && k'[0] == p[0] {
        PrefixInterval(p[1..], k[1..], k'[1..]);
        assert p <= k' ==> p[1..] <= k'[1..] by {
          if p <= k' { assert p[1..] == k'[1..|p|] == k'[1..][..|p| - 1]; }
        }
      } else {
        PrefixInterval(p[1..], k[1..], "");
      }
    }
  }

  function Digit(d: nat): char
    requires d < 10
  {
    "0123456789"[d]
  }

  /** Decimal numeral, as str(n) prints it. */
  function Decimal(n: nat): (s: string)
    ensures s != ""
  {
    if n < 10 then [Digit(n)] else Decimal(n / 10) + [Digit(n % 10)]
  }

  lemma {:induction false} DecimalInjective(m: nat, n: nat)
    requires Decimal(m) == Decimal(n)
    ensures m == n
  {
    var s, t := Decimal(m), Decimal(n);
    assert (|s| == 1 <==> m < 10) && (|t| == 1 <==> n < 10);
    if m < 10 {
      assert s[0] == t[0];
    } else {
      assert s[|s| - 1] == t[|t| - 1];
      assert s[..|s| - 1] == Decimal(m / 10) && t[..|t| - 1] == Decimal(n / 10);
      DecimalInjective(m / 10, n / 10);
    }
  }
}
