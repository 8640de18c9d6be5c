/** Sorting names byte-wise: there is one ascending listing of a finite set. */
module Sorting {
  import opened Basics
  import Text

  ghost predicate Ascending(xs: seq<string>)
  {
    forall i, j :: 0 <= i < j < |xs| ==> Text.Less(xs[i], xs[j])
  }

  ghost predicate IsLast(s: set<string>, m: string)
  {
    m in s && forall x :: x in s && x != m ==> Text.Less(x, m)
  }

  lemma {:induction false} LastExists(s: set<string>) returns (m: string)
    requires s != {}
    ensures IsLast(s, m)
  {
    m :| m in s;
    var rest := s - {m};
    assert forall x :: x in s && x != m ==> x in rest;
    if rest != {} {
      var r := LastExists(rest);
      Text.LessTotal(r, m);
      if Text.Less(m, r) {
        m := r;
      } else {
        LastMoves(rest, r, m);
      }
    }
  }

  lemma LastMoves(rest: set<string>, r: string, m: string)
    requires IsLast(rest, r) && Text.Less(r, m)
    ensures IsLast(rest + {m}, m)
  {
    forall x | x in rest + {m} && x != m
      ensures Text.Less(x, m)
    {
      if x != r {
        Text.LessTransitive(x, r, m);
      }
    }
  }

  ghost function Last(s: set<string>): (m: string)
    requires s != {}
    ensures m in s && IsLast(s, m)
  {
    assert exists m :: IsLast(s, m) by { var m := LastExists(s); }
    var m :| IsLast(s, m);
    m
  }

  lemma OrderedAppend(xs: seq<string>, s: set<string>, m: string)
    requires IsLast(s, m) && Lists(xs, s - {m}) && Ascending(xs)
    ensures Lists(xs + [m], s) && Ascending(xs + [m])
  {
  }

  /** The names of s in ascending order. */
  ghost function Ordered(s: set<string>): (xs: seq<string>)
    ensures Lists(xs, s) && Ascending(xs)
    decreases |s|
  {
    if s == {} then []
    else
      var m := Last(s);
      var xs := Ordered(s - {m});
      OrderedAppend(xs, s, m);
      xs + [m]
  }

  lemma OrderedNone()
    ensures Ordered({}) == []
  {
  }

  lemma OrderedNext(s: set<string>)
    requires s != {}
    ensures Ordered(s) == Ordered(s - {Last(s)}) + [Last(s)]
  {
  }

  lemma AscendingEndsInLast(xs: seq<string>, s: set<string>, m: string)
    requires xs != [] && Lists(xs, s) && Ascending(xs) && IsLast(s, m)
    ensures xs[|xs| - 1] == m
  {
    var n := |xs| - 1;
    assert xs[n] in s;
    if xs[n] != m {
      assert m in xs;
      var i :| 0 <= i < |xs| && xs[i] == m;
      assert Text.Less(xs[i], xs[n]);
      Text.LessTotal(m, xs[n]);
    }
  }

  /** There is only one ascending listing, so sorting forgets the order a map was met in. */
  lemma {:induction false} OrderedUnique(xs: seq<string>, s: set<string>)
    requires Lists(xs, s) && Ascending(xs)
    ensures xs == Ordered(s)
    decreases |s|
  {
    hide Text.Less;
    hide Ordered;
    hide IsLast;
    if s == {} {
      OrderedNone();
      ListsLength(xs, s);
    } else {
      var m, n := Last(s), |xs| - 1;
      assert m in xs;
      ListsDropLast(xs, s);
      OrderedNext(s);
      AscendingEndsInLast(xs, s, m);
      OrderedUnique(xs[..n], s - {m});
    }
  }

  /** Names in ascending order, by insertion. */
  function Sort(xs: seq<string>): seq<string>
  {
    if xs == [] then [] else Insert(Sort(xs[..|xs| - 1]), xs[|xs| - 1])
  }

  function Insert(ys: seq<string>, x: string): (zs: seq<string>)
    ensures |zs| == |ys| + 1
    ensures forall y :: y in zs <==> y == x || y in ys
  {
    if ys == [] then [x]
    else
      var n := |ys| - 1;
      if Text.Less(ys[n], x) then ys + [x]
      else
        assert forall y :: y in ys <==> y in ys[..n] || y == ys[n] by { assert ys == ys[..n] + [ys[n]]; }
        Insert(ys[..n], x) + [ys[n]]
  }

  lemma {:induction false} InsertAscends(ys: seq<string>, x: string)
    requires Ascending(ys) && x !in ys
    ensures Ascending(Insert(ys, x))
  {
    if ys != [] {
      var n := |ys| - 1;
      var zs := Insert(ys, x);
      if Text.Less(ys[n], x) {
        forall i, j | 0 <= i < j < |zs|
          ensures Text.Less(zs[i], zs[j])
        {
          if j == n + 1 && i < n { Text.LessTransitive(ys[i], ys[n], x); }
        }
      } else {
        Text.LessTotal(ys[n], x);
        InsertAscends(ys[..n], x);
        forall i, j | 0 <= i < j < |zs|
          ensures Text.Less(zs[i], zs[j])
        {
          if j == n + 1 {
            assert zs[i] in Insert(ys[..n], x);
          }
        }
      }
    }
  }

  /** Sorting any listing of the names of s gives the ascending one. */
  lemma {:induction false} SortOrders(xs: seq<string>, s: set<string>)
    requires Lists(xs, s)
    ensures Sort(xs) == Ordered(s)
    decreases |xs|
  {
    hide Insert;
    if xs == [] {
      OrderedUnique(xs, s);
    } else {
      var n := |xs| - 1;
      var t := s - {xs[n]};
      ListsDropLast(xs, s);
      SortOrders(xs[..n], t);
      InsertListed(Ordered(t), t, xs[n]);
      assert t + {xs[n]} == s;
      OrderedUnique(Sort(xs), s);
    }
  }

  lemma InsertListed(ys: seq<string>, t: set<string>, x: string)
    requires Lists(ys, t) && Ascending(ys) && x !in t
    ensures Lists(Insert(ys, x), t + {x}) && Ascending(Insert(ys, x))
  {
    InsertAscends(ys, x);
    var zs := Insert(ys, x);
    forall i, j | 0 <= i < j < |zs|
      ensures zs[i] != zs[j]
    {
      Text.LessTotal(zs[i], zs[i]);
    }
  }
}
