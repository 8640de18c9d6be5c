/** The retry of parked objects: what one pass does, and when as many passes as there
    are parked types reach the least fixpoint of resolvable objects. */
module InventoryRetry {
  import opened Basics
  import opened InventoryModel
  import opened InventorySelectors

  // --------------------------------------------------------- the ideal retry

  /** One parked object in a pass: cached and produced when all its relationships resolve, or
      kept. For objects with one relationship this is what the in-place pass does; with several
      it produces an object as soon as one relationship resolves. */
  function RetryOne(schema: Schema, f: Flow, o: Mo): Flow
  {
    match KeyOf(schema, o)
    case None => f
    case Some(k) =>
      if Resolvable(f.cache.Keys, o) then f.(cache := f.cache[k := o], out := f.out + [o])
      else f.(parked := f.parked + [o])
  }

  function RetryAll(schema: Schema, f: Flow, os: seq<Mo>): Flow
  {
    if os == [] then f else RetryOne(schema, RetryAll(schema, f, os[..|os| - 1]), os[|os| - 1])
  }

  /** One pass over everything parked. */
  function RetryPass(schema: Schema, f: Flow): Flow
  {
    RetryAll(schema, f.(parked := []), f.parked)
  }

  function RetryRounds(schema: Schema, n: nat, f: Flow): Flow
  {
    if n == 0 || f.parked == [] then f else RetryRounds(schema, n - 1, RetryPass(schema, f))
  }

  /** As many passes as there are distinct types among the parked objects. */
  function Retry(schema: Schema, f: Flow): Flow
  {
    RetryRounds(schema, |TypesOf(f.parked)|, f)
  }

  // ------------------------------------------------------------ one pass

  /** Every object has a key; true of everything the processing loop parks. */
  ghost predicate Keyed(schema: Schema, os: seq<Mo>)
  {
    forall o :: o in os ==> KeyOf(schema, o).Some?
  }

  lemma ResolvableMonotone(keys: set<string>, more: set<string>, o: Mo)
    requires keys <= more && Resolvable(keys, o)
    ensures Resolvable(more, o)
  {
  }

  /** A pass only adds keys and only appends to the output; it visits every object of the
      list, either producing it or keeping it, and keeps none that resolved at its start. */
  lemma {:induction false} RetryAllSplits(schema: Schema, f: Flow, os: seq<Mo>)
    requires Keyed(schema, os)
    ensures var g := RetryAll(schema, f, os);
            && f.cache.Keys <= g.cache.Keys
            && f.out <= g.out
            && f.parked <= g.parked
            && (forall o :: o in os ==> o in g.parked[|f.parked|..] || KeyOf(schema, o).value in g.cache)
            && (forall o :: o in g.parked[|f.parked|..] ==> o in os && !Resolvable(f.cache.Keys, o))
            && (forall o :: o in os && Resolvable(f.cache.Keys, o) ==> KeyOf(schema, o).value in g.cache)
  {
    hide Resolvable;
    hide KeyOf;
    if os != [] {
      var n := |os| - 1;
      RetryAllSplits(schema, f, os[..n]);
      var h := RetryAll(schema, f, os[..n]);
      var g := RetryAll(schema, f, os);
      var o := os[n];
      assert KeyOf(schema, o).Some?;
      if Resolvable(f.cache.Keys, o) {
        ResolvableMonotone(f.cache.Keys, h.cache.Keys, o);
      }
      if !Resolvable(h.cache.Keys, o) {
        assert g.parked[|f.parked|..] == h.parked[|f.parked|..] + [o];
      }
      forall x | x in os && x != o
        ensures x in os[..n]
      {
        var i :| 0 <= i < |os| && os[i] == x;
        assert os[..n][i] == x;
      }
    }
  }

  /** A key that a pass adds to the cache is the key of an object it resolved. */
  lemma {:induction false} RetryAllSound(schema: Schema, f: Flow, os: seq<Mo>, k: string) returns (o: Mo)
    requires Keyed(schema, os)
    requires k in RetryAll(schema, f, os).cache && k !in f.cache
    ensures o in os && KeyOf(schema, o) == Some(k) && Resolvable(RetryAll(schema, f, os).cache.Keys, o)
  {
    var n := |os| - 1;
    var h := RetryAll(schema, f, os[..n]);
    var g := RetryAll(schema, f, os);
    assert KeyOf(schema, os[n]).Some?;
    if k in h.cache {
      o := RetryAllSound(schema, f, os[..n], k);
    } else {
      o := os[n];
    }
    ResolvableMonotone(h.cache.Keys, g.cache.Keys, o);
  }

  // ------------------------------------------------------- least fixpoint

  /** keys contains the key of every object of os it resolves. */
  ghost predicate Closed(schema: Schema, os: seq<Mo>, keys: set<string>)
  {
    forall o :: o in os && Resolvable(keys, o) ==> KeyOf(schema, o).Some? && KeyOf(schema, o).value in keys
  }

  /** keys is the least set that contains base and is closed under resolving objects of os. */
  ghost predicate LeastFixpoint(schema: Schema, base: set<string>, os: seq<Mo>, keys: set<string>)
  {
    && base <= keys
    && Closed(schema, os, keys)
    && (forall ks: set<string> :: base <= ks && Closed(schema, os, ks) ==> keys <= ks)
  }

  /** However many passes are made, no pass leaves any closed set. */
  lemma {:induction false} RetryAllWithin(schema: Schema, f: Flow, os: seq<Mo>, all: seq<Mo>, ks: set<string>)
    requires Keyed(schema, all)
    requires forall o :: o in os ==> o in all
    requires f.cache.Keys <= ks && Closed(schema, all, ks)
    ensures RetryAll(schema, f, os).cache.Keys <= ks
  {
    if os != [] {
      var n := |os| - 1;
      RetryAllWithin(schema, f, os[..n], all, ks);
      var h := RetryAll(schema, f, os[..n]);
      assert os[n] in all;
      if Resolvable(h.cache.Keys, os[n]) {
        ResolvableMonotone(h.cache.Keys, ks, os[n]);
      }
    }
  }

  /** What any number of passes keeps: keys only grow, parked objects only leave, those
      that leave are cached, and new keys come from resolved objects of the list. */
  lemma {:induction false} RetryRoundsInvariant(schema: Schema, n: nat, f: Flow, all: seq<Mo>, ks: set<string>)
    requires Keyed(schema, all)
    requires forall o :: o in f.parked ==> o in all
    requires forall o :: o in all ==> o in f.parked || KeyOf(schema, o).value in f.cache
    ensures var g := RetryRounds(schema, n, f);
            && f.cache.Keys <= g.cache.Keys
            && (forall o :: o in g.parked ==> o in f.parked)
            && (forall o :: o in all ==> o in g.parked || KeyOf(schema, o).value in g.cache)
            && (f.cache.Keys <= ks && Closed(schema, all, ks) ==> g.cache.Keys <= ks)
  {
    if n != 0 && f.parked != [] {
      PassInvariant(schema, f, all, ks);
      hide RetryPass;
      hide Closed;
      hide Keyed;
      hide KeyOf;
      RetryRoundsInvariant(schema, n - 1, RetryPass(schema, f), all, ks);
    }
  }

  lemma PassInvariant(schema: Schema, f: Flow, all: seq<Mo>, ks: set<string>)
    requires Keyed(schema, all)
    requires forall o :: o in f.parked ==> o in all
    requires forall o :: o in all ==> o in f.parked || KeyOf(schema, o).value in f.cache
    ensures var g := RetryPass(schema, f);
            && f.cache.Keys <= g.cache.Keys
            && (forall o :: o in g.parked ==> o in f.parked)
            && (forall o :: o in all ==> o in g.parked || KeyOf(schema, o).value in g.cache)
            && (f.cache.Keys <= ks && Closed(schema, all, ks) ==> g.cache.Keys <= ks)
  {
    assert Keyed(schema, f.parked);
    var h := RetryPass(schema, f);
    RetryAllSplits(schema, f.(parked := []), f.parked);
    assert h.parked[0..] == h.parked;
    if f.cache.Keys <= ks && Closed(schema, all, ks) {
      RetryAllWithin(schema, f.(parked := []), f.parked, all, ks);
    }
    hide RetryAll;
  }

  lemma PassKeeps(schema: Schema, f: Flow)
    requires Keyed(schema, f.parked)
    ensures f.cache.Keys <= RetryPass(schema, f).cache.Keys
    ensures forall o :: o in RetryPass(schema, f).parked ==> o in f.parked
  {
    RetryAllSplits(schema, f.(parked := []), f.parked);
    var h := RetryPass(schema, f);
    assert h.parked[0..] == h.parked;
  }

  lemma RoundsGrow(schema: Schema, n: nat, f: Flow)
    requires Keyed(schema, f.parked)
    ensures f.cache.Keys <= RetryRounds(schema, n, f).cache.Keys
  {
    RetryRoundsInvariant(schema, n, f, f.parked, {});
  }

  lemma RoundsUnfold(schema: Schema, n: nat, f: Flow)
    requires n > 0 && f.parked != []
    ensures RetryRounds(schema, n, f) == RetryRounds(schema, n - 1, RetryPass(schema, f))
  {
  }

  lemma PassSound(schema: Schema, f: Flow, k: string) returns (o: Mo)
    requires Keyed(schema, f.parked) && k in RetryPass(schema, f).cache && k !in f.cache
    ensures o in f.parked && KeyOf(schema, o) == Some(k) && Resolvable(RetryPass(schema, f).cache.Keys, o)
  {
    o := RetryAllSound(schema, f.(parked := []), f.parked, k);
  }

  /** A key added by the rounds belongs to an object that was parked and resolves at the end. */
  lemma {:induction false} RetryRoundsSound(schema: Schema, n: nat, f: Flow, k: string) returns (o: Mo)
    requires Keyed(schema, f.parked)
    requires k in RetryRounds(schema, n, f).cache && k !in f.cache
    ensures o in f.parked && KeyOf(schema, o) == Some(k)
    ensures Resolvable(RetryRounds(schema, n, f).cache.Keys, o)
  {
    assert n > 0 && f.parked != [];
    RoundsUnfold(schema, n, f);
    PassKeeps(schema, f);
    var h := RetryPass(schema, f);
    assert Keyed(schema, h.parked);
    RoundsGrow(schema, n - 1, h);
    hide RetryRounds;
    hide RetryPass;
    hide Keyed;
    hide KeyOf;
    hide Resolvable;
    if k in h.cache {
      o := PassSound(schema, f, k);
      ResolvableMonotone(h.cache.Keys, RetryRounds(schema, n - 1, h).cache.Keys, o);
    } else {
      o := RetryRoundsSound(schema, n - 1, h, k);
    }
  }

  // -------------------------------------------------------------- ranking

  /** A parked object refers, among parked objects, only to objects of lower-ranked types. */
  ghost predicate Ranked(schema: Schema, rank: string -> nat, os: seq<Mo>)
  {
    forall o, o', p, r ::
      o in os && o' in os && p in o && r in RefsIn(o[p]) && SelectorKey(r).Some? && SelectorKey(r) == KeyOf(schema, o')
      ==> rank(TypeName(o')) < rank(TypeName(o))
  }

  function TypeName(o: Mo): string
  {
    match TypeOf(o) case Some(t) => t case None => ""
  }

  /** Types of os ranked strictly below the type of o. */
  ghost function Below(rank: string -> nat, os: seq<Mo>, o: Mo): set<string>
  {
    set t | t in TypesOf(os) && rank(t) < rank(TypeName(o))
  }

  lemma BelowShrinks(rank: string -> nat, os: seq<Mo>, o: Mo, o': Mo)
    requires o' in os && TypeOf(o').Some? && rank(TypeName(o')) < rank(TypeName(o))
    ensures |Below(rank, os, o')| < |Below(rank, os, o)|
  {
    assert TypeName(o') in Below(rank, os, o) - Below(rank, os, o');
    Shorter(Below(rank, os, o'), Below(rank, os, o), TypeName(o'));
  }

  lemma BelowBound(rank: string -> nat, os: seq<Mo>, o: Mo)
    requires o in os && TypeOf(o).Some?
    ensures |Below(rank, os, o)| < |TypesOf(os)|
  {
    assert TypeName(o) in TypesOf(os);
    Shorter(Below(rank, os, o), TypesOf(os), TypeName(o));
  }

  lemma Shorter<T>(a: set<T>, b: set<T>, x: T)
    requires a <= b && x in b && x !in a
    ensures |a| < |b|
  {
    assert b == a + (b - a);
    assert x in b - a;
  }

  /** If o resolves with more keys but not with fewer, one of its references names a key
      that only the larger set has. */
  lemma MissingTarget(keys: set<string>, more: set<string>, o: Mo) returns (p: string, r: MoRef)
    requires Resolvable(more, o) && !Resolvable(keys, o)
    ensures p in o && r in RefsIn(o[p]) && SelectorKey(r).Some?
    ensures SelectorKey(r).value in more && SelectorKey(r).value !in keys
  {
    p :| p in o && !ValueResolves(keys, o[p]);
    r :| r in RefsIn(o[p]) && !RefResolves(keys, r);
    assert ValueResolves(more, o[p]) && RefResolves(more, r);
  }

  /** An object kept by a pass whose targets of lower types never resolve never does either. */
  lemma KeptForGood(schema: Schema, rank: string -> nat, n: nat, depth: nat, f: Flow, all: seq<Mo>, o: Mo)
    requires Keyed(schema, all) && Ranked(schema, rank, all) && n > 0
    requires forall x :: x in f.parked ==> x in all
    requires var last := RetryRounds(schema, n, f).cache.Keys;
             forall x :: x in f.parked && |Below(rank, all, x)| < depth ==> !Resolvable(last, x)
    requires o in f.parked && !Resolvable(f.cache.Keys, o) && |Below(rank, all, o)| < depth + 1
    ensures !Resolvable(RetryRounds(schema, n, f).cache.Keys, o)
  {
    var last := RetryRounds(schema, n, f).cache.Keys;
    if Resolvable(last, o) {
      var p, r := MissingTarget(f.cache.Keys, last, o);
      assert Keyed(schema, f.parked);
      var o' := RetryRoundsSound(schema, n, f, SelectorKey(r).value);
      hide Resolvable;
      hide RetryRounds;
      assert o in all && o' in all;
      assert rank(TypeName(o')) < rank(TypeName(o));
      hide Ranked;
      BelowShrinks(rank, all, o, o');
      assert false;
    }
  }

  /** Suppose every object still parked with fewer than depth lower types can never
      resolve. Then after n more passes the same holds for depth + n. */
  lemma {:induction false} RoundsSettle(schema: Schema, rank: string -> nat, n: nat, depth: nat, f: Flow, all: seq<Mo>)
    requires Keyed(schema, all) && Ranked(schema, rank, all)
    requires forall o :: o in f.parked ==> o in all
    requires forall o :: o in all ==> o in f.parked || KeyOf(schema, o).value in f.cache
    requires var last := RetryRounds(schema, n, f).cache.Keys;
             forall o :: o in f.parked && |Below(rank, all, o)| < depth ==> !Resolvable(last, o)
    ensures var g := RetryRounds(schema, n, f);
            forall o :: o in g.parked && |Below(rank, all, o)| < depth + n ==> !Resolvable(g.cache.Keys, o)
  {
    hide Ranked;
    hide Below;
    hide Resolvable;
    if n != 0 && f.parked != [] {
      var h := RetryPass(schema, f);
      RoundsUnfold(schema, n, f);
      PassInvariant(schema, f, all, {});
      PassKept(schema, f, all);
      hide RetryPass;
      hide Keyed;
      hide KeyOf;
      forall o | o in h.parked && |Below(rank, all, o)| < depth + 1
        ensures !Resolvable(RetryRounds(schema, n, f).cache.Keys, o)
      {
        KeptForGood(schema, rank, n, depth, f, all, o);
      }
      RoundsSettle(schema, rank, n - 1, depth + 1, h, all);
    }
  }

  lemma PassKept(schema: Schema, f: Flow, all: seq<Mo>)
    requires Keyed(schema, all) && forall o :: o in f.parked ==> o in all
    ensures forall o :: o in RetryPass(schema, f).parked ==> o in f.parked && !Resolvable(f.cache.Keys, o)
  {
    assert Keyed(schema, f.parked);
    RetryAllSplits(schema, f.(parked := []), f.parked);
    assert RetryPass(schema, f).parked[0..] == RetryPass(schema, f).parked;
  }

  /** With a type ranking, as many passes as there are distinct parked types put exactly
      the least fixpoint of resolvable objects in the cache, whatever the list order; an
      object is left parked exactly when that fixpoint does not resolve it. */
  lemma RetryReachesLeastFixpoint(schema: Schema, rank: string -> nat, f: Flow)
    requires Keyed(schema, f.parked) && Ranked(schema, rank, f.parked)
    ensures LeastFixpoint(schema, f.cache.Keys, f.parked, Retry(schema, f).cache.Keys)
    ensures forall o :: o in f.parked ==>
              (o in Retry(schema, f).parked <==> !Resolvable(Retry(schema, f).cache.Keys, o))
  {
    var os := f.parked;
    var n := |TypesOf(os)|;
    var g := Retry(schema, f);
    RoundsSettle(schema, rank, n, 0, f, os);
    RetryRoundsInvariant(schema, n, f, os, {});
    forall o | o in g.parked
      ensures !Resolvable(g.cache.Keys, o)
    {
      assert o in os;
      BelowBound(rank, os, o);
    }
    forall o | o in os && !Resolvable(g.cache.Keys, o)
      ensures o in g.parked
    {
      RoundsKeepUnresolved(schema, n, f, g.cache.Keys, o);
    }
    forall ks: set<string> | f.cache.Keys <= ks && Closed(schema, os, ks)
      ensures g.cache.Keys <= ks
    {
      RetryRoundsInvariant(schema, n, f, os, ks);
    }
  }

  lemma {:induction false} PassKeepsUnresolved(schema: Schema, f: Flow, os: seq<Mo>, last: set<string>, o: Mo)
    requires Keyed(schema, os) && o in os
    requires RetryAll(schema, f, os).cache.Keys <= last && !Resolvable(last, o)
    ensures o in RetryAll(schema, f, os).parked
  {
    var n := |os| - 1;
    var h := RetryAll(schema, f, os[..n]);
    assert KeyOf(schema, os[n]).Some?;
    if o == os[n] {
      if Resolvable(h.cache.Keys, o) {
        ResolvableMonotone(h.cache.Keys, last, o);
      }
    } else {
      var i :| 0 <= i < |os| && os[i] == o;
      assert os[..n][i] == o;
      PassKeepsUnresolved(schema, f, os[..n], last, o);
    }
  }

  lemma OnePassKeepsUnresolved(schema: Schema, f: Flow, last: set<string>, o: Mo)
    requires Keyed(schema, f.parked) && o in f.parked
    requires RetryPass(schema, f).cache.Keys <= last && !Resolvable(last, o)
    ensures Keyed(schema, RetryPass(schema, f).parked) && o in RetryPass(schema, f).parked
  {
    PassKeeps(schema, f);
    PassKeepsUnresolved(schema, f.(parked := []), f.parked, last, o);
  }

  /** An object that does not resolve at the end is never dropped. */
  lemma {:induction false} RoundsKeepUnresolved(schema: Schema, n: nat, f: Flow, last: set<string>, o: Mo)
    requires Keyed(schema, f.parked) && o in f.parked
    requires RetryRounds(schema, n, f).cache.Keys <= last && !Resolvable(last, o)
    ensures o in RetryRounds(schema, n, f).parked
  {
    hide Resolvable;
    hide RetryPass;
    if n != 0 {
      var h := RetryPass(schema, f);
      RoundsUnfold(schema, n, f);
      PassKeeps(schema, f);
      RoundsGrow(schema, n - 1, h);
      OnePassKeepsUnresolved(schema, f, last, o);
      RoundsKeepUnresolved(schema, n - 1, h, last, o);
    }
  }

  // ------------------------------------------- each object after its target

  /** Every produced object resolves against the keys in base and those produced before it. */
  ghost predicate Grounded(schema: Schema, base: set<string>, out: seq<Mo>)
  {
    forall i :: 0 <= i < |out| ==> Resolvable(base + KeysOf(schema, out[..i]), out[i])
  }

  lemma KeysOfAppend(schema: Schema, os: seq<Mo>, o: Mo)
    ensures KeysOf(schema, os + [o]) ==
            KeysOf(schema, os) + (if KeyOf(schema, o).Some? then {KeyOf(schema, o).value} else {})
  {
  }

  lemma GroundedAppend(schema: Schema, base: set<string>, out: seq<Mo>, o: Mo)
    requires Grounded(schema, base, out) && Resolvable(base + KeysOf(schema, out), o)
    ensures Grounded(schema, base, out + [o])
  {
    var ys := out + [o];
    forall i | 0 <= i < |ys|
      ensures Resolvable(base + KeysOf(schema, ys[..i]), ys[i])
    {
      assert ys[..i] == out[..i];
      if i == |out| { assert out[..i] == out; }
    }
  }

  /** The flow so far is grounded and has cached nothing but base and what it produced. */
  ghost predicate Tracks(schema: Schema, base: set<string>, f: Flow)
  {
    Grounded(schema, base, f.out) && f.cache.Keys <= base + KeysOf(schema, f.out)
  }

  lemma {:induction false} RetryAllGrounded(schema: Schema, base: set<string>, f: Flow, os: seq<Mo>)
    requires Tracks(schema, base, f)
    ensures Tracks(schema, base, RetryAll(schema, f, os))
  {
    if os != [] {
      var n := |os| - 1;
      RetryAllGrounded(schema, base, f, os[..n]);
      var h := RetryAll(schema, f, os[..n]);
      var o := os[n];
      if KeyOf(schema, o).Some? && Resolvable(h.cache.Keys, o) {
        ResolvableMonotone(h.cache.Keys, base + KeysOf(schema, h.out), o);
        GroundedAppend(schema, base, h.out, o);
        KeysOfAppend(schema, h.out, o);
      }
    }
  }

  lemma {:induction false} RetryRoundsGrounded(schema: Schema, base: set<string>, n: nat, f: Flow)
    requires Tracks(schema, base, f)
    ensures Tracks(schema, base, RetryRounds(schema, n, f))
  {
    if n != 0 && f.parked != [] {
      RetryAllGrounded(schema, base, f.(parked := []), f.parked);
      RetryRoundsGrounded(schema, base, n - 1, RetryPass(schema, f));
    }
  }
}
