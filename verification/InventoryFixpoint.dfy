/** Exactly what any number of retry passes caches, and exactly when the number of passes the
    code makes reaches the least fixpoint. */
module InventoryFixpoint {
  import opened Basics
  import opened InventoryCompaction
  import opened InventoryModel
  import opened InventoryRetry
  import opened InventorySelectors

  /** Position i of the parked list os resolves within n passes over it, base being cached before. */
  ghost predicate Within(schema: Schema, base: set<string>, os: seq<Mo>, n: nat, i: nat)
    requires i < |os|
    decreases n, i, 1
  {
    n > 0 && forall p, r :: p in os[i] && r in RefsIn(os[i][p]) ==>
               SelectorKey(r).Some? && Cached(schema, base, os, n - 1, i, SelectorKey(r).value)
  }

  /** Keys cached when pass n + 1 comes to position i: those in base, those of positions that stand
      earlier and resolve within n + 1 passes, and those of any that resolve within n. */
  ghost predicate Cached(schema: Schema, base: set<string>, os: seq<Mo>, n: nat, i: nat, k: string)
    decreases n + 1, i, 0
  {
    k in base ||
    exists j: nat :: j < |os| && KeyOf(schema, os[j]) == Some(k) &&
                     if j < i then Within(schema, base, os, n + 1, j) else n > 0 && Within(schema, base, os, n, j)
  }

  lemma {:induction false} WithinMore(schema: Schema, base: set<string>, os: seq<Mo>, n: nat, i: nat)
    requires i < |os| && Within(schema, base, os, n, i)
    ensures Within(schema, base, os, n + 1, i)
    decreases n, i, 1
  {
    hide Cached;
    hide SelectorKey;
    hide RefsIn;
    forall p, r | p in os[i] && r in RefsIn(os[i][p])
      ensures Cached(schema, base, os, n, i, SelectorKey(r).value)
    {
      CachedMore(schema, base, os, n - 1, i, SelectorKey(r).value);
    }
  }

  lemma {:induction false} CachedMore(schema: Schema, base: set<string>, os: seq<Mo>, n: nat, i: nat, k: string)
    requires Cached(schema, base, os, n, i, k)
    ensures Cached(schema, base, os, n + 1, i, k)
    decreases n + 1, i, 0
  {
    if k !in base {
      var j: nat :| j < |os| && KeyOf(schema, os[j]) == Some(k) &&
                    if j < i then Within(schema, base, os, n + 1, j) else n > 0 && Within(schema, base, os, n, j);
      WithinMore(schema, base, os, if j < i then n + 1 else n, j);
    }
  }

  lemma ResolvableIff(keys: set<string>, o: Mo)
    ensures Resolvable(keys, o) <==> forall p, r :: p in o && r in RefsIn(o[p]) ==> RefResolves(keys, r)
  {
    if Resolvable(keys, o) {
      forall p, r | p in o && r in RefsIn(o[p])
        ensures RefResolves(keys, r)
      {
        assert ValueResolves(keys, o[p]);
      }
    }
  }

  /** An object is resolved by its visit in pass n + 1 exactly when it resolves within n + 1. */
  lemma ResolvedByVisit(schema: Schema, base: set<string>, os: seq<Mo>, n: nat, i: nat, keys: set<string>)
    requires i < |os| && forall k :: k in keys <==> Cached(schema, base, os, n, i, k)
    ensures Resolvable(keys, os[i]) <==> Within(schema, base, os, n + 1, i)
  {
    hide Cached;
    ResolvableIff(keys, os[i]);
    hide Resolvable;
  }

  lemma WithinCached(schema: Schema, base: set<string>, os: seq<Mo>, n: nat, j: nat)
    requires j < |os| && Within(schema, base, os, n, j) && KeyOf(schema, os[j]).Some?
    ensures Cached(schema, base, os, n, 0, KeyOf(schema, os[j]).value)
  {
  }

  /** The positions below i that do not resolve within n passes, in list order. */
  ghost function Left(schema: Schema, base: set<string>, os: seq<Mo>, n: nat, i: nat): seq<Mo>
    requires i <= |os|
  {
    if i == 0 then []
    else Left(schema, base, os, n, i - 1) + (if Within(schema, base, os, n, i - 1) then [] else [os[i - 1]])
  }

  lemma {:induction false} LeftAll(schema: Schema, base: set<string>, os: seq<Mo>, i: nat)
    requires i <= |os|
    ensures Left(schema, base, os, 0, i) == os[..i]
  {
    if i > 0 {
      LeftAll(schema, base, os, i - 1);
      assert os[..i] == os[..i - 1] + [os[i - 1]];
    }
  }

  /** What pass n + 1 has done when it has come to position i. */
  ghost predicate Midway(schema: Schema, base: set<string>, os: seq<Mo>, n: nat, i: nat, f: Flow)
    requires i <= |os|
  {
    f.parked == Left(schema, base, os, n + 1, i) && forall k :: k in f.cache <==> Cached(schema, base, os, n, i, k)
  }

  lemma CachedNext(schema: Schema, base: set<string>, os: seq<Mo>, n: nat, i: nat, k: string)
    requires i < |os|
    ensures Cached(schema, base, os, n, i + 1, k)
            <==>
            Cached(schema, base, os, n, i, k)
            || (KeyOf(schema, os[i]) == Some(k) && Within(schema, base, os, n + 1, i))
  {
    if Within(schema, base, os, n, i) {
      WithinMore(schema, base, os, n, i);
    }
  }

  lemma {:induction false} PassMidway(schema: Schema, base: set<string>, os: seq<Mo>, n: nat, i: nat, f: Flow)
    requires Keyed(schema, os) && i <= |os| && f.parked == []
    requires forall k :: k in f.cache <==> Cached(schema, base, os, n, 0, k)
    ensures Midway(schema, base, os, n, i, RetryAll(schema, f, Left(schema, base, os, n, i)))
  {
    if i > 0 {
      var j: nat := i - 1;
      PassMidway(schema, base, os, n, j, f);
      var h := RetryAll(schema, f, Left(schema, base, os, n, j));
      forall k
        ensures Cached(schema, base, os, n, i, k)
                <==>
                Cached(schema, base, os, n, j, k)
                || (KeyOf(schema, os[j]) == Some(k) && Within(schema, base, os, n + 1, j))
      {
        CachedNext(schema, base, os, n, j, k);
      }
      assert KeyOf(schema, os[j]).Some?;
      if Within(schema, base, os, n, j) {
        WithinMore(schema, base, os, n, j);
        assert Cached(schema, base, os, n, j, KeyOf(schema, os[j]).value);
        assert Left(schema, base, os, n, i) == Left(schema, base, os, n, j);
      } else {
        ResolvedByVisit(schema, base, os, n, j, h.cache.Keys);
        RetryNext(schema, f, Left(schema, base, os, n, j), os[j]);
      }
    }
  }

  lemma RetryNext(schema: Schema, f: Flow, os: seq<Mo>, o: Mo)
    ensures RetryAll(schema, f, os + [o]) == RetryOne(schema, RetryAll(schema, f, os), o)
  {
    assert (os + [o])[..|os|] == os;
  }

  lemma {:induction false} RoundsLast(schema: Schema, n: nat, f: Flow)
    ensures RetryRounds(schema, n + 1, f) == RetryPass(schema, RetryRounds(schema, n, f))
  {
    if f.parked == [] {
      assert RetryPass(schema, f) == f;
    } else if n > 0 {
      RoundsLast(schema, n - 1, RetryPass(schema, f));
    }
  }

  lemma PassEnds(schema: Schema, base: set<string>, os: seq<Mo>, n: nat, k: string)
    ensures Cached(schema, base, os, n, |os|, k) <==> Cached(schema, base, os, n + 1, 0, k)
  {
    hide Within;
    hide KeyOf;
  }

  /** Any number of passes over any parked list caches exactly base and the keys of the
      positions that resolve within that many, and leaves exactly the others parked, in order. */
  lemma {:induction false} RoundsCacheExactly(schema: Schema, n: nat, f: Flow)
    requires Keyed(schema, f.parked)
    ensures var g := RetryRounds(schema, n, f);
            && g.parked == Left(schema, f.cache.Keys, f.parked, n, |f.parked|)
            && forall k :: k in g.cache <==> Cached(schema, f.cache.Keys, f.parked, n, 0, k)
  {
    var base, os := f.cache.Keys, f.parked;
    if n == 0 {
      LeftAll(schema, base, os, |os|);
      assert os[..|os|] == os;
    } else {
      RoundsCacheExactly(schema, n - 1, f);
      var h := RetryRounds(schema, n - 1, f);
      RoundsLast(schema, n - 1, f);
      PassMidway(schema, base, os, n - 1, |os|, h.(parked := []));
      hide RetryRounds;
      hide RetryAll;
      hide Keyed;
      hide Cached;
      forall k
        ensures Cached(schema, base, os, n - 1, |os|, k) <==> Cached(schema, base, os, n, 0, k)
      {
        PassEnds(schema, base, os, n - 1, k);
      }
    }
  }

  /** The positions below i that resolve within n passes, in list order. */
  ghost function Gone(schema: Schema, base: set<string>, os: seq<Mo>, n: nat, i: nat): seq<Mo>
    requires i <= |os|
  {
    if i == 0 then []
    else Gone(schema, base, os, n, i - 1) + (if Within(schema, base, os, n, i - 1) then [os[i - 1]] else [])
  }

  lemma OneMore<T>(xs: seq<T>, x: T)
    ensures multiset(xs + [x]) == multiset(xs) + multiset{x}
  {
  }

  lemma AddEither<T>(xs: seq<T>, ys: seq<T>, zs: seq<T>, x: T)
    requires multiset(xs) + multiset(ys) == multiset(zs)
    ensures multiset(xs + [x]) + multiset(ys) == multiset(zs + [x]) == multiset(xs) + multiset(ys + [x])
  {
    OneMore(xs, x);
    OneMore(ys, x);
    OneMore(zs, x);
  }

  lemma LeftOrGoneNext(schema: Schema, base: set<string>, os: seq<Mo>, n: nat, i: nat)
    requires i < |os|
    ensures if Within(schema, base, os, n, i)
            then Left(schema, base, os, n, i + 1) == Left(schema, base, os, n, i)
                 && Gone(schema, base, os, n, i + 1) == Gone(schema, base, os, n, i) + [os[i]]
            else Left(schema, base, os, n, i + 1) == Left(schema, base, os, n, i) + [os[i]]
                 && Gone(schema, base, os, n, i + 1) == Gone(schema, base, os, n, i)
  {
    hide Within;
  }

  lemma LeftOrGoneNone(schema: Schema, base: set<string>, os: seq<Mo>, n: nat)
    ensures multiset(Left(schema, base, os, n, 0)) + multiset(Gone(schema, base, os, n, 0)) == multiset(os[..0])
  {
    assert os[..0] == [];
  }

  lemma {:induction false} LeftOrGone(schema: Schema, base: set<string>, os: seq<Mo>, n: nat, i: nat)
    requires i <= |os|
    ensures multiset(Left(schema, base, os, n, i)) + multiset(Gone(schema, base, os, n, i)) == multiset(os[..i])
  {
    hide Within;
    hide Left;
    hide Gone;
    if i > 0 {
      var all := os[..i - 1];
      assert os[..i] == all + [os[i - 1]];
      LeftOrGone(schema, base, os, n, i - 1);
      LeftOrGoneNext(schema, base, os, n, i - 1);
      AddEither(Left(schema, base, os, n, i - 1), Gone(schema, base, os, n, i - 1), all, os[i - 1]);
    } else {
      LeftOrGoneNone(schema, base, os, n);
    }
  }

  /** The objects produced or still parked. */
  ghost function Both(f: Flow): multiset<Mo>
  {
    multiset(f.out) + multiset(f.parked)
  }

  lemma RetryOneConserves(schema: Schema, f: Flow, o: Mo)
    requires KeyOf(schema, o).Some?
    ensures Both(RetryOne(schema, f, o)) == Both(f) + multiset{o}
  {
    hide KeyOf;
    hide Resolvable;
    OneMore(f.out, o);
    OneMore(f.parked, o);
  }

  lemma {:induction false} RetryAllConserves(schema: Schema, f: Flow, os: seq<Mo>)
    requires Keyed(schema, os)
    ensures Both(RetryAll(schema, f, os)) == Both(f) + multiset(os)
  {
    hide Both;
    hide RetryOne;
    if os != [] {
      var n := |os| - 1;
      assert os[n] in os && os == os[..n] + [os[n]];
      RetryAllConserves(schema, f, os[..n]);
      RetryOneConserves(schema, RetryAll(schema, f, os[..n]), os[n]);
      OneMore(os[..n], os[n]);
    }
  }

  lemma PassConserves(schema: Schema, f: Flow)
    requires Keyed(schema, f.parked)
    ensures Both(RetryPass(schema, f)) == Both(f)
  {
    RetryAllConserves(schema, f.(parked := []), f.parked);
    hide RetryAll;
  }

  lemma {:induction false} RetryRoundsConserves(schema: Schema, n: nat, f: Flow)
    requires Keyed(schema, f.parked)
    ensures Both(RetryRounds(schema, n, f)) == Both(f)
  {
    hide Both;
    hide RetryPass;
    if n > 0 && f.parked != [] {
      PassConserves(schema, f);
      PassKeeps(schema, f);
      RetryRoundsConserves(schema, n - 1, RetryPass(schema, f));
    }
  }

  /** And it produces exactly the objects at those positions, each once. */
  lemma RoundsProduceExactly(schema: Schema, n: nat, f: Flow)
    requires Keyed(schema, f.parked)
    ensures multiset(RetryRounds(schema, n, f).out)
         == multiset(f.out) + multiset(Gone(schema, f.cache.Keys, f.parked, n, |f.parked|))
  {
    var base, os := f.cache.Keys, f.parked;
    RoundsCacheExactly(schema, n, f);
    RetryRoundsConserves(schema, n, f);
    LeftOrGone(schema, base, os, n, |os|);
    assert os[..|os|] == os;
    hide Left;
    hide Gone;
    hide RetryRounds;
    Cancel(multiset(RetryRounds(schema, n, f).out), multiset(f.out) + multiset(Gone(schema, base, os, n, |os|)),
           multiset(Left(schema, base, os, n, |os|)));
  }

  lemma Cancel<T>(a: multiset<T>, b: multiset<T>, c: multiset<T>)
    requires a + c == b + c
    ensures a == b
  {
    assert (a + c) - c == a && (b + c) - c == b;
  }

  lemma {:induction false} GoneMembers(schema: Schema, base: set<string>, os: seq<Mo>, n: nat, i: nat)
    requires i <= |os|
    ensures forall o :: o in Gone(schema, base, os, n, i) <==>
              exists j :: 0 <= j < i && Within(schema, base, os, n, j) && os[j] == o
  {
    hide Within;
    if i > 0 {
      GoneMembers(schema, base, os, n, i - 1);
    }
  }

  // --------------------------------------------------------- the fixpoint

  /** Whatever resolves within some number of passes is in every closed set. */
  lemma {:induction false} WithinClosed(schema: Schema, base: set<string>, os: seq<Mo>, n: nat, i: nat, ks: set<string>)
    requires i < |os| && Within(schema, base, os, n, i)
    requires base <= ks && Closed(schema, os, ks)
    ensures KeyOf(schema, os[i]).Some? && KeyOf(schema, os[i]).value in ks
    decreases n, i, 1
  {
    hide Cached;
    forall p, r | p in os[i] && r in RefsIn(os[i][p])
      ensures RefResolves(ks, r)
    {
      CachedClosed(schema, base, os, n - 1, i, SelectorKey(r).value, ks);
    }
    ResolvableIff(ks, os[i]);
    hide Resolvable;
    assert os[i] in os;
  }

  lemma {:induction false} CachedClosed(schema: Schema, base: set<string>, os: seq<Mo>, n: nat, i: nat, k: string,
      ks: set<string>)
    requires Cached(schema, base, os, n, i, k)
    requires base <= ks && Closed(schema, os, ks)
    ensures k in ks
    decreases n + 1, i, 0
  {
    if k !in base {
      var j: nat :| j < |os| && KeyOf(schema, os[j]) == Some(k) &&
                    if j < i then Within(schema, base, os, n + 1, j) else n > 0 && Within(schema, base, os, n, j);
      WithinClosed(schema, base, os, if j < i then n + 1 else n, j, ks);
    }
  }

  /** No parked object needs more than n passes to have its key cached. */
  ghost predicate EnoughPasses(schema: Schema, base: set<string>, os: seq<Mo>, n: nat)
  {
    forall m: nat, i: nat :: i < |os| && KeyOf(schema, os[i]).Some? && Within(schema, base, os, m, i)
      ==> Cached(schema, base, os, n, 0, KeyOf(schema, os[i]).value)
  }

  /** A set of cached keys that any n passes leave is the least fixpoint if and only if no
      object needs more passes. */
  lemma FixpointIff(schema: Schema, base: set<string>, os: seq<Mo>, n: nat, keys: set<string>)
    requires Keyed(schema, os) && forall k :: k in keys <==> Cached(schema, base, os, n, 0, k)
    ensures LeastFixpoint(schema, base, os, keys) <==> EnoughPasses(schema, base, os, n)
  {
    forall ks: set<string> | base <= ks && Closed(schema, os, ks)
      ensures keys <= ks
    {
      forall k | k in keys
        ensures k in ks
      {
        CachedClosed(schema, base, os, n, 0, k, ks);
      }
    }
    assert base <= keys by {
      assert forall k :: k in base ==> Cached(schema, base, os, n, 0, k);
    }
    if Closed(schema, os, keys) {
      forall m: nat, i: nat | i < |os| && KeyOf(schema, os[i]).Some? && Within(schema, base, os, m, i)
        ensures Cached(schema, base, os, n, 0, KeyOf(schema, os[i]).value)
      {
        WithinClosed(schema, base, os, m, i, keys);
      }
    }
    if EnoughPasses(schema, base, os, n) {
      forall o | o in os && Resolvable(keys, o)
        ensures KeyOf(schema, o).Some? && KeyOf(schema, o).value in keys
      {
        var i :| 0 <= i < |os| && os[i] == o;
        NextPass(schema, base, os, n, i, keys);
      }
    }
  }

  /** What resolves after n passes resolves within one more. */
  lemma NextPass(schema: Schema, base: set<string>, os: seq<Mo>, n: nat, i: nat, keys: set<string>)
    requires i < |os| && Resolvable(keys, os[i]) && forall k :: k in keys <==> Cached(schema, base, os, n, 0, k)
    ensures Within(schema, base, os, n + 1, i)
  {
    ResolvableIff(keys, os[i]);
    forall p, r | p in os[i] && r in RefsIn(os[i][p])
      ensures SelectorKey(r).Some? && Cached(schema, base, os, n, i, SelectorKey(r).value)
    {
      CachedLater(schema, base, os, n, i, SelectorKey(r).value);
    }
  }

  lemma CachedLater(schema: Schema, base: set<string>, os: seq<Mo>, n: nat, i: nat, k: string)
    requires Cached(schema, base, os, n, 0, k)
    ensures Cached(schema, base, os, n, i, k)
  {
    if k !in base {
      var j: nat :| j < |os| && KeyOf(schema, os[j]) == Some(k) && n > 0 && Within(schema, base, os, n, j);
      WithinMore(schema, base, os, n, j);
    }
  }

  // -------------------------------------------------------- paths of targets

  ghost predicate UniqueKeys(schema: Schema, os: seq<Mo>)
  {
    Keyed(schema, os) && forall i, j :: 0 <= i < j < |os| ==> KeyOf(schema, os[i]) != KeyOf(schema, os[j])
  }

  /** A reference of position i names the key of position j, which was not cached before. */
  ghost predicate Link(schema: Schema, base: set<string>, os: seq<Mo>, i: nat, j: nat)
  {
    && i < |os| && j < |os|
    && exists p, r :: p in os[i] && r in RefsIn(os[i][p]) && LinkBy(schema, base, os, r, j)
  }

  predicate LinkBy(schema: Schema, base: set<string>, os: seq<Mo>, r: MoRef, j: nat)
    requires j < |os|
  {
    SelectorKey(r).Some? && SelectorKey(r) == KeyOf(schema, os[j]) && SelectorKey(r).value !in base
  }

  /** Positions each of which refers to the next one. */
  ghost predicate Path(schema: Schema, base: set<string>, os: seq<Mo>, c: seq<nat>)
  {
    c != [] && c[0] < |os| && (|c| == 1 || (Link(schema, base, os, c[0], c[1]) && Path(schema, base, os, c[1..])))
  }

  /** One, plus the steps of the path to a position that does not stand earlier in the list. */
  function PassesNeeded(c: seq<nat>): (n: nat)
    ensures n >= 1
  {
    if |c| <= 1 then 1 else PassesNeeded(c[1..]) + (if c[1] < c[0] then 0 else 1)
  }

  /** Every reference of position i names a key that was cached before or a listed object. */
  ghost predicate Known(schema: Schema, base: set<string>, os: seq<Mo>, i: nat)
    requires i < |os|
  {
    forall p, r :: p in os[i] && r in RefsIn(os[i][p]) ==>
      && SelectorKey(r).Some?
      && (SelectorKey(r).value in base || exists j: nat :: j < |os| && SelectorKey(r) == KeyOf(schema, os[j]))
  }

  /** No path from i needs more than n passes or leads to a reference to nothing. */
  ghost predicate Bounded(schema: Schema, base: set<string>, os: seq<Mo>, n: nat, i: nat)
  {
    forall c :: Path(schema, base, os, c) && c[0] == i ==> PassesNeeded(c) <= n && KnownLast(schema, base, os, c)
  }

  ghost predicate KnownLast(schema: Schema, base: set<string>, os: seq<Mo>, c: seq<nat>)
  {
    c != [] && c[|c| - 1] < |os| && Known(schema, base, os, c[|c| - 1])
  }

  lemma KeyPosition(schema: Schema, base: set<string>, os: seq<Mo>, n: nat, i: nat, j: nat)
    requires UniqueKeys(schema, os) && j < |os| && KeyOf(schema, os[j]).value !in base
    ensures Cached(schema, base, os, n, i, KeyOf(schema, os[j]).value)
            <==> if j < i then Within(schema, base, os, n + 1, j) else n > 0 && Within(schema, base, os, n, j)
  {
    hide Within;
    hide KeyOf;
    assert os[j] in os;
  }

  lemma LinkWithin(schema: Schema, base: set<string>, os: seq<Mo>, n: nat, i: nat, j: nat)
    requires UniqueKeys(schema, os) && i < |os| && Within(schema, base, os, n, i) && Link(schema, base, os, i, j)
    ensures if j < i then Within(schema, base, os, n, j) else n > 1 && Within(schema, base, os, n - 1, j)
  {
    var p, r :| p in os[i] && r in RefsIn(os[i][p]) && LinkBy(schema, base, os, r, j);
    hide Cached;
    assert Cached(schema, base, os, n - 1, i, SelectorKey(r).value);
    KeyPosition(schema, base, os, n - 1, i, j);
  }

  lemma WithinKnown(schema: Schema, base: set<string>, os: seq<Mo>, n: nat, i: nat)
    requires i < |os| && Within(schema, base, os, n, i)
    ensures n >= 1 && Known(schema, base, os, i)
  {
    forall p, r | p in os[i] && r in RefsIn(os[i][p])
      ensures Cached(schema, base, os, n - 1, i, SelectorKey(r).value)
    {
    }
    hide Within;
    hide SelectorKey;
  }

  lemma {:induction false} WithinBounds(schema: Schema, base: set<string>, os: seq<Mo>, n: nat, c: seq<nat>)
    requires UniqueKeys(schema, os) && Path(schema, base, os, c) && Within(schema, base, os, n, c[0])
    ensures PassesNeeded(c) <= n && KnownLast(schema, base, os, c)
    decreases |c|
  {
    hide Within;
    hide Known;
    hide UniqueKeys;
    hide Link;
    if |c| == 1 {
      WithinKnown(schema, base, os, n, c[0]);
    } else {
      assert c[1..][|c| - 2] == c[|c| - 1];
      LinkWithin(schema, base, os, n, c[0], c[1]);
      assert c[1..][0] == c[1];
      WithinBounds(schema, base, os, if c[1] < c[0] then n else n - 1, c[1..]);
    }
  }

  lemma Lengthen(schema: Schema, base: set<string>, os: seq<Mo>, i: nat, c: seq<nat>)
    requires Path(schema, base, os, c) && Link(schema, base, os, i, c[0])
    ensures Path(schema, base, os, [i] + c) && PassesNeeded([i] + c) == PassesNeeded(c) + (if c[0] < i then 0 else 1)
    ensures KnownLast(schema, base, os, [i] + c) ==> KnownLast(schema, base, os, c)
  {
    assert i < |os|;
    hide Link;
    hide Known;
    assert ([i] + c)[1..] == c;
    assert ([i] + c)[|c|] == c[|c| - 1];
  }

  lemma BoundedNext(schema: Schema, base: set<string>, os: seq<Mo>, n: nat, i: nat, j: nat)
    requires Bounded(schema, base, os, n, i) && Link(schema, base, os, i, j)
    ensures j >= i ==> n > 1
    ensures Bounded(schema, base, os, if j < i then n else n - 1, j)
  {
    assert j < |os|;
    hide Link;
    hide Known;
    Lengthen(schema, base, os, i, [j]);
    forall c | Path(schema, base, os, c) && c[0] == j
      ensures PassesNeeded(c) <= (if j < i then n else n - 1) && KnownLast(schema, base, os, c)
    {
      Lengthen(schema, base, os, i, c);
    }
  }

  lemma {:induction false} BoundsWithin(schema: Schema, base: set<string>, os: seq<Mo>, n: nat, i: nat)
    requires UniqueKeys(schema, os) && i < |os| && Bounded(schema, base, os, n, i)
    ensures Within(schema, base, os, n, i)
    decreases n, i
  {
    assert Path(schema, base, os, [i]) && PassesNeeded([i]) <= n && KnownLast(schema, base, os, [i]);
    forall p, r | p in os[i] && r in RefsIn(os[i][p])
      ensures SelectorKey(r).Some? && Cached(schema, base, os, n - 1, i, SelectorKey(r).value)
    {
      if SelectorKey(r).value !in base {
        var j: nat :| j < |os| && SelectorKey(r) == KeyOf(schema, os[j]);
        assert LinkBy(schema, base, os, r, j) && Link(schema, base, os, i, j);
        BoundedNext(schema, base, os, n, i, j);
        BoundsWithin(schema, base, os, if j < i then n else n - 1, j);
        KeyPosition(schema, base, os, n - 1, i, j);
      }
    }
    hide Cached;
  }

  /** With one object per key a position resolves within n passes if and only if no path of
      targets from it needs more than n passes or leads to a reference to nothing. */
  lemma WithinIffBounded(schema: Schema, base: set<string>, os: seq<Mo>, n: nat, i: nat)
    requires UniqueKeys(schema, os) && i < |os|
    ensures Within(schema, base, os, n, i) <==> Bounded(schema, base, os, n, i)
  {
    hide Within;
    hide UniqueKeys;
    if Within(schema, base, os, n, i) {
      forall c | Path(schema, base, os, c) && c[0] == i
        ensures PassesNeeded(c) <= n && KnownLast(schema, base, os, c)
      {
        WithinBounds(schema, base, os, n, c);
      }
    } else if Bounded(schema, base, os, n, i) {
      BoundsWithin(schema, base, os, n, i);
    }
  }

  // ------------------------------------------------- what resolves at all

  predicate NoRepeat(c: seq<nat>)
  {
    forall a, b :: 0 <= a < b < |c| ==> c[a] != c[b]
  }

  /** Below position i there is no cycle of references and no reference to nothing. */
  ghost predicate Settled(schema: Schema, base: set<string>, os: seq<Mo>, i: nat)
  {
    forall c :: Path(schema, base, os, c) && c[0] == i ==> NoRepeat(c) && KnownLast(schema, base, os, c)
  }

  lemma {:induction false} PathSuffix(schema: Schema, base: set<string>, os: seq<Mo>, c: seq<nat>, a: nat)
    requires Path(schema, base, os, c) && a < |c|
    ensures Path(schema, base, os, c[a..])
    decreases a
  {
    if a > 0 {
      PathSuffix(schema, base, os, c[1..], a - 1);
      assert c[1..][a - 1..] == c[a..];
    } else {
      assert c[0..] == c;
    }
  }

  /** Along a path the passes within which positions resolve go down, or the positions do. */
  lemma {:induction false} Descends(schema: Schema, base: set<string>, os: seq<Mo>, n: nat, c: seq<nat>, a: nat)
      returns (m: nat)
    requires UniqueKeys(schema, os) && Path(schema, base, os, c) && Within(schema, base, os, n, c[0]) && a < |c|
    ensures c[a] < |os| && Within(schema, base, os, m, c[a]) && m <= n
    ensures a > 0 ==> m < n || c[a] < c[0]
    decreases a
  {
    hide Within;
    hide UniqueKeys;
    m := n;
    if a > 0 {
      LinkWithin(schema, base, os, n, c[0], c[1]);
      assert c[1..][0] == c[1] && c[1..][a - 1] == c[a];
      m := Descends(schema, base, os, if c[1] < c[0] then n else n - 1, c[1..], a - 1);
    }
  }

  lemma {:induction false} NoReturn(schema: Schema, base: set<string>, os: seq<Mo>, n: nat, c: seq<nat>, a: nat)
    requires UniqueKeys(schema, os) && Path(schema, base, os, c) && Within(schema, base, os, n, c[0])
    requires 0 < a < |c|
    ensures c[a] != c[0]
    decreases n
  {
    hide Within;
    hide UniqueKeys;
    if c[a] == c[0] {
      var m := Descends(schema, base, os, n, c, a);
      NoReturn(schema, base, os, m, c, a);
    }
  }

  lemma Fewer(c: seq<nat>, n: nat)
    requires NoRepeat(c) && forall a :: 0 <= a < |c| ==> c[a] < n
    ensures |c| <= n
    decreases n
  {
    assert |c| > 0 ==> c[0] < n;
    if n > 0 {
      if a :| 0 <= a < |c| && c[a] == n - 1 {
        var d := c[..a] + c[a + 1..];
        assert forall b :: 0 <= b < |d| ==> d[b] == c[if b < a then b else b + 1];
        Fewer(d, n - 1);
      } else {
        Fewer(c, n - 1);
      }
    }
  }

  lemma {:induction false} PathLength(schema: Schema, base: set<string>, os: seq<Mo>, c: seq<nat>)
    requires Path(schema, base, os, c)
    ensures PassesNeeded(c) <= |c| && forall a :: 0 <= a < |c| ==> c[a] < |os|
    decreases |c|
  {
    if |c| > 1 {
      PathLength(schema, base, os, c[1..]);
      assert forall a :: 1 <= a < |c| ==> c[a] == c[1..][a - 1];
    }
  }

  lemma NoReturnAt(schema: Schema, base: set<string>, os: seq<Mo>, n: nat, c: seq<nat>, a: nat, b: nat)
    requires UniqueKeys(schema, os) && Path(schema, base, os, c) && Within(schema, base, os, n, c[0])
    requires a < b < |c|
    ensures c[a] != c[b]
  {
    hide UniqueKeys;
    hide Within;
    var m := Descends(schema, base, os, n, c, a);
    PathSuffix(schema, base, os, c, a);
    var d := c[a..];
    assert d[0] == c[a] && d[b - a] == c[b];
    hide Path;
    NoReturn(schema, base, os, m, d, b - a);
  }

  lemma PathOfWithin(schema: Schema, base: set<string>, os: seq<Mo>, n: nat, c: seq<nat>)
    requires UniqueKeys(schema, os) && Path(schema, base, os, c) && Within(schema, base, os, n, c[0])
    ensures NoRepeat(c) && KnownLast(schema, base, os, c)
  {
    WithinBounds(schema, base, os, n, c);
    hide UniqueKeys;
    hide Within;
    hide KnownLast;
    hide PassesNeeded;
    forall a, b | 0 <= a < b < |c|
      ensures c[a] != c[b]
    {
      NoReturnAt(schema, base, os, n, c, a, b);
    }
  }

  lemma SettledWithin(schema: Schema, base: set<string>, os: seq<Mo>, i: nat)
    requires UniqueKeys(schema, os) && i < |os| && Settled(schema, base, os, i)
    ensures Within(schema, base, os, |os|, i)
  {
    hide UniqueKeys;
    hide Within;
    hide KnownLast;
    forall c | Path(schema, base, os, c) && c[0] == i
      ensures PassesNeeded(c) <= |os| && KnownLast(schema, base, os, c)
    {
      PathLength(schema, base, os, c);
      Fewer(c, |os|);
    }
    BoundsWithin(schema, base, os, |os|, i);
  }

  /** A position resolves within some number of passes if and only if below it there is no cycle
      of references and no reference to nothing; then as many passes as there are objects do. */
  lemma SettledIff(schema: Schema, base: set<string>, os: seq<Mo>, i: nat)
    requires UniqueKeys(schema, os) && i < |os|
    ensures (exists n: nat :: Within(schema, base, os, n, i)) <==> Settled(schema, base, os, i)
    ensures Settled(schema, base, os, i) <==> Within(schema, base, os, |os|, i)
  {
    hide UniqueKeys;
    hide Within;
    hide KnownLast;
    if n: nat :| Within(schema, base, os, n, i) {
      forall c | Path(schema, base, os, c) && c[0] == i
        ensures NoRepeat(c) && KnownLast(schema, base, os, c)
      {
        PathOfWithin(schema, base, os, n, c);
      }
    }
    if Settled(schema, base, os, i) {
      SettledWithin(schema, base, os, i);
    }
  }

  /** Every path from a position that resolves at all is short enough for n passes. */
  ghost predicate PathsFit(schema: Schema, base: set<string>, os: seq<Mo>, n: nat)
  {
    forall c :: Path(schema, base, os, c) && Starts(schema, base, os, c[0]) ==> PassesNeeded(c) <= n
  }

  /** Position i is not cached before and resolves at all. */
  ghost predicate Starts(schema: Schema, base: set<string>, os: seq<Mo>, i: nat)
  {
    i < |os| && KeyOf(schema, os[i]).Some? && KeyOf(schema, os[i]).value !in base && Settled(schema, base, os, i)
  }

  lemma EnoughIffPathsFit(schema: Schema, base: set<string>, os: seq<Mo>, n: nat)
    requires UniqueKeys(schema, os)
    ensures EnoughPasses(schema, base, os, n) <==> PathsFit(schema, base, os, n)
  {
    hide Within;
    hide Cached;
    hide Known;
    if EnoughPasses(schema, base, os, n) {
      forall c | Path(schema, base, os, c) && Starts(schema, base, os, c[0])
        ensures PassesNeeded(c) <= n
      {
        SettledIff(schema, base, os, c[0]);
        assert Cached(schema, base, os, n, 0, KeyOf(schema, os[c[0]]).value);
        KeyPosition(schema, base, os, n, 0, c[0]);
        WithinBounds(schema, base, os, n, c);
      }
    }
    if PathsFit(schema, base, os, n) {
      forall m: nat, i: nat | i < |os| && KeyOf(schema, os[i]).Some? && Within(schema, base, os, m, i)
        ensures Cached(schema, base, os, n, 0, KeyOf(schema, os[i]).value)
      {
        FitsInTime(schema, base, os, n, m, i);
      }
    }
  }

  lemma FitsInTime(schema: Schema, base: set<string>, os: seq<Mo>, n: nat, m: nat, i: nat)
    requires UniqueKeys(schema, os) && i < |os| && Within(schema, base, os, m, i) && PathsFit(schema, base, os, n)
    ensures Cached(schema, base, os, n, 0, KeyOf(schema, os[i]).value)
  {
    hide Within;
    hide Known;
    assert os[i] in os;
    if KeyOf(schema, os[i]).value !in base {
      SettledIff(schema, base, os, i);
      hide UniqueKeys;
      assert Path(schema, base, os, [i]);
      BoundsWithin(schema, base, os, n, i);
      KeyPosition(schema, base, os, n, 0, i);
    }
  }

  /** With one object per key, what n passes cache. */
  lemma CachedIffBounded(schema: Schema, base: set<string>, os: seq<Mo>, n: nat, k: string)
    requires UniqueKeys(schema, os)
    ensures Cached(schema, base, os, n, 0, k)
            <==>
            k in base ||
            exists i: nat :: i < |os| && KeyOf(schema, os[i]) == Some(k) && Bounded(schema, base, os, n, i)
  {
    hide Bounded;
    forall i: nat | i < |os| && KeyOf(schema, os[i]) == Some(k)
      ensures Within(schema, base, os, n, i) <==> Bounded(schema, base, os, n, i)
    {
      WithinIffBounded(schema, base, os, n, i);
    }
    hide Within;
  }

  /** The retry of objects with one relationship, whatever the order of their properties, caches
      exactly the keys that resolve within as many passes as there are parked types; and that is
      the least fixpoint if and only if no object needs more: with one object per key, if and
      only if every path of targets from an object that resolves at all fits in the passes. */
  lemma RetryReachesFixpointIff(schema: Schema, f: Flow, passes: seq<seq<seq<string>>>)
    requires Single(f.parked) && Keyed(schema, f.parked)
    requires Ranged(schema, |TypesOf(f.parked)|, f, passes) && Reprocess(schema, f, passes).Some?
    ensures var g, n := Reprocess(schema, f, passes).value, |TypesOf(f.parked)|;
            && (forall k :: k in g.cache <==> Cached(schema, f.cache.Keys, f.parked, n, 0, k))
            && (LeastFixpoint(schema, f.cache.Keys, f.parked, g.cache.Keys)
                <==> EnoughPasses(schema, f.cache.Keys, f.parked, n))
    ensures var g, n := Reprocess(schema, f, passes).value, |TypesOf(f.parked)|;
            UniqueKeys(schema, f.parked) ==>
              (LeastFixpoint(schema, f.cache.Keys, f.parked, g.cache.Keys)
               <==> PathsFit(schema, f.cache.Keys, f.parked, n))
  {
    hide Ranged;
    hide Single;
    hide Cached;
    hide EnoughPasses;
    hide PathsFit;
    hide LeastFixpoint;
    hide UniqueKeys;
    var n := |TypesOf(f.parked)|;
    ReprocessIsRetry(schema, f, passes);
    RoundsCacheExactly(schema, n, f);
    FixpointIff(schema, f.cache.Keys, f.parked, n, Reprocess(schema, f, passes).value.cache.Keys);
    if UniqueKeys(schema, f.parked) {
      EnoughIffPathsFit(schema, f.cache.Keys, f.parked, n);
    }
  }

  /** With a type ranking there are always enough passes. */
  lemma RankedReachesFixpoint(schema: Schema, rank: string -> nat, f: Flow, passes: seq<seq<seq<string>>>)
    requires Single(f.parked) && Keyed(schema, f.parked) && Ranked(schema, rank, f.parked)
    requires Ranged(schema, |TypesOf(f.parked)|, f, passes) && Reprocess(schema, f, passes).Some?
    ensures var g := Reprocess(schema, f, passes).value;
            && LeastFixpoint(schema, f.cache.Keys, f.parked, g.cache.Keys)
            && (forall o :: o in f.parked ==> (o in g.parked <==> !Resolvable(g.cache.Keys, o)))
            && EnoughPasses(schema, f.cache.Keys, f.parked, |TypesOf(f.parked)|)
  {
    hide Ranged;
    hide Single;
    hide Ranked;
    hide LeastFixpoint;
    hide EnoughPasses;
    hide Resolvable;
    ReprocessIsRetry(schema, f, passes);
    RetryReachesLeastFixpoint(schema, rank, f);
    RetryReachesFixpointIff(schema, f, passes);
  }

  // ------------------------------------------------------ too few passes

  /** Every reference of o names k, and there is one. */
  ghost predicate OnlyTarget(o: Mo, k: string)
  {
    && (forall p, r :: p in o && r in RefsIn(o[p]) ==> SelectorKey(r) == Some(k))
    && (exists p, r :: p in o && r in RefsIn(o[p]))
  }

  lemma ResolvesInBase(schema: Schema, base: set<string>, os: seq<Mo>, n: nat, i: nat)
    requires i < |os| && n > 0 && Resolvable(base, os[i])
    ensures Within(schema, base, os, n, i)
  {
    ResolvableIff(base, os[i]);
    forall p, r | p in os[i] && r in RefsIn(os[i][p])
      ensures SelectorKey(r).Some? && Cached(schema, base, os, n - 1, i, SelectorKey(r).value)
    {
      assert RefResolves(base, r);
    }
  }

  lemma OnlyTargetWithin(schema: Schema, base: set<string>, os: seq<Mo>, n: nat, i: nat, k: string)
    requires i < |os| && n > 0 && OnlyTarget(os[i], k)
    ensures Within(schema, base, os, n, i) <==> Cached(schema, base, os, n - 1, i, k)
  {
    hide Cached;
    var p, r :| p in os[i] && r in RefsIn(os[i][p]);
    assert SelectorKey(r) == Some(k);
  }

  /** A schema with one type t identified by field id, and objects of it. */
  function OneType(t: string, id: string): Schema
  {
    Schema(map[t := [id]], (v: Value) => if v.Str? then v.s else "")
  }

  function Plain(t: string, id: string, x: string): Mo
  {
    map[OBJECT_TYPE := Str(t), id := Str(x)]
  }

  /** Like Plain, with a relationship to the object identified by y. */
  function Linked(t: string, id: string, x: string, rel: string, y: string): Mo
  {
    Plain(t, id, x)[rel := Ref(MoRef(t, SelectorFor(id, "eq", y)))]
  }

  predicate Fields(id: string, rel: string)
  {
    Word(id) && id != OBJECT_TYPE && rel != OBJECT_TYPE && rel != id
  }

  function PlainKey(t: string, id: string, x: string): string
  {
    "ObjectType=" + t + ("" + ":" + id + "=" + x)
  }

  lemma PlainKeys(t: string, id: string, x: string, rel: string, y: string)
    requires Fields(id, rel)
    ensures KeyOf(OneType(t, id), Plain(t, id, x)) == Some(PlainKey(t, id, x))
    ensures KeyOf(OneType(t, id), Linked(t, id, x, rel, y)) == Some(PlainKey(t, id, x))
    ensures x != y ==> PlainKey(t, id, x) != PlainKey(t, id, y)
  {
    var s := OneType(t, id);
    var ids := s.identities[t];
    assert ids[..0] == [] && FieldKey(s, ids[..0], Plain(t, id, x)) == Some("")
           == FieldKey(s, ids[..0], Linked(t, id, x, rel, y));
    var head := "ObjectType=" + t + ":" + id + "=";
    assert PlainKey(t, id, x) == head + x && PlainKey(t, id, y) == head + y;
    assert (head + x)[|head|..] == x && (head + y)[|head|..] == y;
  }

  lemma LinkedResolves(t: string, id: string, x: string, rel: string, y: string, keys: set<string>)
    requires Fields(id, rel) && Quotable(y)
    ensures Resolvable(keys, Plain(t, id, x))
    ensures Resolvable(keys, Linked(t, id, x, rel, y)) <==> PlainKey(t, id, y) in keys
  {
    PlainKeys(t, id, y, rel, x);
    var o := Linked(t, id, x, rel, y);
    var r := MoRef(t, SelectorFor(id, "eq", y));
    SelectorRoundTrip(OneType(t, id), t, id, y, Plain(t, id, y));
    assert RefsIn(o[rel]) == [r] && r in RefsIn(o[rel]);
    assert ValueResolves(keys, o[rel]) <==> RefResolves(keys, r);
    assert forall p :: p in o && p != rel ==> RefsIn(o[p]) == [];
  }

  lemma LinkedTarget(t: string, id: string, rel: string, x: string, y: string)
    requires Fields(id, rel) && Quotable(y)
    ensures OnlyTarget(Linked(t, id, x, rel, y), PlainKey(t, id, y))
    ensures Relations(Linked(t, id, x, rel, y)) == {rel}
  {
    var o, r := Linked(t, id, x, rel, y), MoRef(t, SelectorFor(id, "eq", y));
    PlainKeys(t, id, y, rel, x);
    SelectorRoundTrip(OneType(t, id), t, id, y, Plain(t, id, y));
    hide SelectorKey;
    hide SelectorFor;
    hide KeyOf;
    OneRef(Plain(t, id, x), rel, r, PlainKey(t, id, y));
  }

  lemma OneRef(o: Mo, rel: string, r: MoRef, k: string)
    requires Relations(o) == {} && SelectorKey(r) == Some(k)
    ensures OnlyTarget(o[rel := Ref(r)], k) && Relations(o[rel := Ref(r)]) == {rel}
  {
    hide SelectorKey;
    var m := o[rel := Ref(r)];
    assert RefsIn(m[rel]) == [r] && r in RefsIn(m[rel]);
    assert forall p :: p in o ==> p !in Relations(o) && RefsIn(o[p]) == [];
  }

  /** An object before its only target, which resolves, needs two passes. */
  lemma TwoNeedTwo(schema: Schema, base: set<string>, a: Mo, b: Mo, ka: string, kb: string)
    requires KeyOf(schema, a) == Some(ka) && KeyOf(schema, b) == Some(kb) && ka != kb && ka !in base && kb !in base
    requires OnlyTarget(a, kb) && Resolvable(base, b)
    ensures !Cached(schema, base, [a, b], 1, 0, ka)
    ensures !EnoughPasses(schema, base, [a, b], 1)
  {
    var os := [a, b];
    assert UniqueKeys(schema, os);
    hide KeyOf;
    hide UniqueKeys;
    hide Resolvable;
    hide Within;
    hide Cached;
    ResolvesInBase(schema, base, os, 1, 1);
    KeyPosition(schema, base, os, 1, 0, 1);
    OnlyTargetWithin(schema, base, os, 2, 0, kb);
    KeyPosition(schema, base, os, 0, 0, 1);
    OnlyTargetWithin(schema, base, os, 1, 0, kb);
    KeyPosition(schema, base, os, 1, 0, 0);
    assert Within(schema, base, os, 2, 0) && !Within(schema, base, os, 1, 0);
    hide OnlyTarget;
    assert os[0] == a;
  }

  /** Two parked objects of one type, the first referring to the second and the second to a
      cached one: one pass is made, in list order, so the first stays out of the cache although
      the fixpoint resolves it. */
  lemma SameTypeChainStops(t: string, id: string, rel: string, x: string, y: string, z: string, cache: Cache,
                           passes: seq<seq<seq<string>>>)
    requires Fields(id, rel) && Quotable(y) && Quotable(z) && x != y
    requires PlainKey(t, id, z) in cache && PlainKey(t, id, y) !in cache && PlainKey(t, id, x) !in cache
    requires var f := Flow(cache, [], [Linked(t, id, x, rel, y), Linked(t, id, y, rel, z)]);
             Ranged(OneType(t, id), |TypesOf(f.parked)|, f, passes) && Reprocess(OneType(t, id), f, passes).Some?
    ensures var f := Flow(cache, [], [Linked(t, id, x, rel, y), Linked(t, id, y, rel, z)]);
            var g := Reprocess(OneType(t, id), f, passes).value;
            PlainKey(t, id, x) !in g.cache && !LeastFixpoint(OneType(t, id), cache.Keys, f.parked, g.cache.Keys)
  {
    var a, b := Linked(t, id, x, rel, y), Linked(t, id, y, rel, z);
    PlainKeys(t, id, x, rel, y);
    PlainKeys(t, id, y, rel, z);
    LinkedTarget(t, id, rel, x, y);
    LinkedTarget(t, id, rel, y, z);
    LinkedResolves(t, id, y, rel, z, cache.Keys);
    OfType(t, id, rel, a, b, x, y, z);
    ChainStops(OneType(t, id), a, b, PlainKey(t, id, x), PlainKey(t, id, y), cache, passes);
  }

  lemma OfType(t: string, id: string, rel: string, a: Mo, b: Mo, x: string, y: string, z: string)
    requires Fields(id, rel) && a == Linked(t, id, x, rel, y) && b == Linked(t, id, y, rel, z)
    ensures |TypesOf([a, b])| == 1
  {
    assert TypeOf(a) == Some(t) == TypeOf(b);
    assert a in [a, b] && TypesOf([a, b]) == {t};
  }

  lemma ChainStops(schema: Schema, a: Mo, b: Mo, ka: string, kb: string, cache: Cache, passes: seq<seq<seq<string>>>)
    requires KeyOf(schema, a) == Some(ka) && KeyOf(schema, b) == Some(kb) && ka != kb && ka !in cache && kb !in cache
    requires |Relations(a)| == 1 == |Relations(b)| && |TypesOf([a, b])| == 1
    requires OnlyTarget(a, kb) && Resolvable(cache.Keys, b)
    requires Ranged(schema, 1, Flow(cache, [], [a, b]), passes)
             && Reprocess(schema, Flow(cache, [], [a, b]), passes).Some?
    ensures var g := Reprocess(schema, Flow(cache, [], [a, b]), passes).value;
            ka !in g.cache && !LeastFixpoint(schema, cache.Keys, [a, b], g.cache.Keys)
  {
    hide Reprocess;
    hide Ranged;
    TwoNeedTwo(schema, cache.Keys, a, b, ka, kb);
    hide Cached;
    hide EnoughPasses;
    hide LeastFixpoint;
    hide OnlyTarget;
    hide Resolvable;
    RetryReachesFixpointIff(schema, Flow(cache, [], [a, b]), passes);
  }
}
