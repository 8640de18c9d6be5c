/** Vocabulary shared by all the components. */
module Basics {

  datatype Option<+T> = None | Some(value: T)

  /** xs names every element of s exactly once: one order in which a program
      that ranges over a hash map may meet the keys s. */
  ghost predicate Lists<T(!new)>(xs: seq<T>, s: set<T>)
  {
    && (forall x :: x in xs <==> x in s)
    && (forall i, j :: 0 <= i < j < |xs| ==> xs[i] != xs[j])
  }

  lemma ListsAppend<T(!new)>(xs: seq<T>, s: set<T>, x: T)
    requires Lists(xs, s) && x !in s
    ensures Lists(xs + [x], s + {x})
  {
  }

  lemma ListsDropFirst<T(!new)>(xs: seq<T>, s: set<T>)
    requires xs != [] && Lists(xs, s)
    ensures Lists(xs[1..], s - {xs[0]})
  {
  }

  lemma ListsDropLast<T(!new)>(xs: seq<T>, s: set<T>)
    requires xs != [] && Lists(xs, s)
    ensures xs[|xs| - 1] in s && Lists(xs[..|xs| - 1], s - {xs[|xs| - 1]})
  {
  }

  /** A listing of a finite set is as long as the set is large. */
  lemma {:induction false} ListsLength<T(!new)>(xs: seq<T>, s: set<T>)
    requires Lists(xs, s)
    ensures |xs| == |s|
  {
    if xs == [] {
      assert s == {};
    } else {
      var n := |xs| - 1;
      assert xs[n] in s;
      var t := s - {xs[n]};
      assert Lists(xs[..n], t) by {
        forall x
          ensures x in xs[..n] <==> x in t
        {
          if x in t {
            var i :| 0 <= i < |xs| && xs[i] == x;
            assert xs[..n][i] == x;
          }
        }
      }
      ListsLength(xs[..n], t);
    }
  }

  lemma DropHead<T>(a: seq<T>, b: seq<T>, n: nat)
    requires n < |a| == |b| && a[n..] == b[n..]
    ensures a[n] == b[n] && a[n + 1..] == b[n + 1..]
  {
  }

  /** The elements of s in some order: a loop over a hash map. */
  method Enumerate<T(!new, ==)>(s: set<T>) returns (xs: seq<T>)
    ensures Lists(xs, s)
  {
    xs := [];
    var left := s;
    while left != {}
      invariant left <= s && Lists(xs, s - left)
      decreases left
    {
      var x :| x in left;
      ListsAppend(xs, s - left, x);
      assert s - (left - {x}) == s - left + {x};
      xs, left := xs + [x], left - {x};
    }
    assert s - left == s;
  }

  lemma MinusNext<K, V>(m: map<K, V>, gone: set<K>, k: K)
    ensures m - gone - {k} == m - (gone + {k})
  {
  }

  lemma DifferenceNext<T>(all: set<T>, left: set<T>, x: T)
    requires x in left
    ensures all - (left - {x}) == if x in all then (all - left) + {x} else all - left
  {
  }

  lemma SoleMember<T>(s: set<T>, x: T)
    requires |s| == 1 && x in s
    ensures s == {x}
  {
    var others := s - {x};
    assert s == others + {x};
    assert |others| == 0;
  }

  lemma PrefixNext<T>(xs: seq<T>, i: nat)
    requires i < |xs|
    ensures xs[..i + 1] == xs[..i] + [xs[i]]
  {
  }

  /** Concatenation of a sequence of sequences. */
  function Concat<T>(xss: seq<seq<T>>): seq<T>
  {
    if xss == [] then [] else Concat(xss[..|xss| - 1]) + xss[|xss| - 1]
  }

  lemma ConcatAppend<T>(xss: seq<seq<T>>, xs: seq<T>)
    ensures Concat(xss + [xs]) == Concat(xss) + xs
  {
  }
}
