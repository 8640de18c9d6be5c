/** One full collection from start to end: which reported objects are cached afterwards, and that
    each cached object is the one reported. */
module InventoryCycle {
  import opened Basics
  import opened InventoryCompaction
  import opened InventoryFixpoint
  import opened InventoryIngest
  import opened InventoryModel
  import opened InventoryReplica
  import opened InventoryRetry
  import opened InventoryStream

  function UpsertsIn(es: seq<Event>): seq<Mo>
  {
    if es == [] then [] else UpsertsIn(es[..|es| - 1]) + es[|es| - 1].report.upserts
  }

  /** Between two collections nothing is parked and nothing counts as reported. */
  predicate Boundary(s: State)
  {
    s.parked == [] && s.reported == {}
  }

  predicate Undeleted(e: Event)
  {
    e.report.deletes == []
  }

  /** The reports of a collection before its full end. */
  predicate Filling(es: seq<Event>)
  {
    forall i :: 0 <= i < |es| ==>
      Undeleted(es[i]) && (es[i].report.kind == FullStart || es[i].report.kind == FullSegment)
  }

  lemma {:induction false} IngestConcat(schema: Schema, f: Flow, xs: seq<Mo>, ys: seq<Mo>)
    ensures Ingest(schema, f, xs + ys) == Ingest(schema, Ingest(schema, f, xs), ys)
  {
    if ys == [] {
      assert xs + ys == xs;
    } else {
      var n := |ys| - 1;
      assert (xs + ys)[..|xs| + n] == xs + ys[..n];
      IngestConcat(schema, f, xs, ys[..n]);
    }
  }

  /** What was produced before plays no part in what is cached and parked. */
  lemma {:induction false} IngestForgets(schema: Schema, f: Flow, out: seq<Mo>, os: seq<Mo>)
    ensures var g, h := Ingest(schema, f, os), Ingest(schema, f.(out := out), os);
            g.cache == h.cache && g.parked == h.parked
  {
    if os != [] {
      IngestForgets(schema, f, out, os[..|os| - 1]);
      hide Resolvable;
      hide KeyOf;
      hide Diff;
    }
  }

  lemma DigestUndeleted(schema: Schema, s: State, rep: Report)
    requires rep.deletes == []
    ensures Digest(schema, s, rep) == (Ingest(schema, Flow(s.cache, [], s.parked), rep.upserts), [])
  {
  }

  lemma SegmentStep(schema: Schema, s: State, e: Event)
    requires Undeleted(e) && (e.report.kind == FullStart || e.report.kind == FullSegment)
    ensures var t, f := Step(schema, s, e).state, Ingest(schema, Flow(s.cache, [], s.parked), e.report.upserts);
            t.cache == f.cache && t.parked == f.parked && t.reported == s.reported + KeysOf(schema, e.report.upserts)
  {
    DigestUndeleted(schema, s, e.report);
    hide Ingest;
    hide KeysOf;
  }

  /** Until the full end a collection is one long list of upserts. */
  lemma {:induction false} SegmentsIngest(schema: Schema, s: State, es: seq<Event>)
    requires Filling(es)
    ensures var t, f := After(schema, s, es), Ingest(schema, Flow(s.cache, [], s.parked), UpsertsIn(es));
            t.cache == f.cache && t.parked == f.parked && t.reported == s.reported + KeysOf(schema, UpsertsIn(es))
  {
    hide Step;
    hide Ingest;
    if es == [] {
      IngestNone(schema, Flow(s.cache, [], s.parked));
    } else {
      var n := |es| - 1;
      var e := es[n];
      SegmentsIngest(schema, s, es[..n]);
      var t, f := After(schema, s, es[..n]), Ingest(schema, Flow(s.cache, [], s.parked), UpsertsIn(es[..n]));
      SegmentStep(schema, t, e);
      IngestConcat(schema, Flow(s.cache, [], s.parked), UpsertsIn(es[..n]), e.report.upserts);
      IngestForgets(schema, f, [], e.report.upserts);
      KeysOfConcat(schema, UpsertsIn(es[..n]), e.report.upserts);
      assert Flow(t.cache, [], t.parked) == f.(out := []);
      hide KeysOf;
    }
  }

  lemma IngestNone(schema: Schema, f: Flow)
    ensures Ingest(schema, f, []) == f && KeysOf(schema, []) == {}
  {
  }

  /** A collection: es before the full end, and the full end e. */
  ghost predicate Cycle(schema: Schema, s: State, es: seq<Event>, e: Event)
  {
    && Boundary(s) && Sound(schema, s)
    && Filling(es) && Undeleted(e) && e.report.kind == FullEnd
    && Possible(schema, After(schema, s, es), e)
  }

  /** Everything the collection reports. */
  function Upserts(es: seq<Event>, e: Event): seq<Mo>
  {
    UpsertsIn(es) + e.report.upserts
  }

  /** The retry of the full end starts from all upserts of the collection. */
  lemma CycleDigest(schema: Schema, s: State, es: seq<Event>, e: Event)
    requires Cycle(schema, s, es, e)
    ensures var t, u := After(schema, s, es), Upserts(es, e);
            var g, f := Digest(schema, t, e.report).0, Ingest(schema, Flow(s.cache, [], []), u);
            && g.cache == f.cache && g.parked == f.parked
            && g.cache.Keys == KeysAfter(schema, s.cache.Keys, u) && g.parked == Waiting(schema, s.cache.Keys, u)
            && Sound(schema, t) && Absorb(schema, t, e).1 == []
            && ReportedAfter(schema, t, e.report) == KeysOf(schema, u)
  {
    var t, u := After(schema, s, es), Upserts(es, e);
    var f0 := Flow(s.cache, [], []);
    SegmentsIngest(schema, s, es);
    var f := Ingest(schema, f0, UpsertsIn(es));
    IngestSound(schema, f0, UpsertsIn(es));
    IngestConcat(schema, f0, UpsertsIn(es), e.report.upserts);
    IngestForgets(schema, f, [], e.report.upserts);
    assert Flow(t.cache, [], t.parked) == f.(out := []);
    DigestUndeleted(schema, t, e.report);
    IngestParksExactly(schema, f0, u);
    KeysOfConcat(schema, UpsertsIn(es), e.report.upserts);
    hide Ingest;
    hide KeysOf;
    hide Digest;
    hide After;
    assert [] + Waiting(schema, s.cache.Keys, u) == Waiting(schema, s.cache.Keys, u);
  }

  ghost predicate ResolvesInTime(schema: Schema, keys: set<string>, u: seq<Mo>, k: string)
  {
    var p := Waiting(schema, keys, u);
    Cached(schema, KeysAfter(schema, keys, u), p, |TypesOf(p)|, 0, k)
  }

  lemma {:induction false} WaitingMembers(schema: Schema, keys: set<string>, u: seq<Mo>)
    ensures forall o :: o in Waiting(schema, keys, u) ==> o in u && KeyOf(schema, o).Some? && |Relations(o)| >= 1
  {
    if u != [] {
      var n := |u| - 1;
      WaitingMembers(schema, keys, u[..n]);
      var ks := KeysAfter(schema, keys, u[..n]);
      if !Resolvable(ks, u[n]) {
        var p :| p in u[n] && !ValueResolves(ks, u[n][p]);
        assert p in Relations(u[n]);
      }
    }
  }

  /** For objects with at most one relationship: after a collection exactly the reported keys
      are cached that were cached before, that were accepted, or that resolve within the passes
      the full end makes. */
  lemma CycleKeys(schema: Schema, s: State, es: seq<Event>, e: Event)
    requires Cycle(schema, s, es, e) && AtMostOne(Upserts(es, e))
    ensures var u := Upserts(es, e);
            && Boundary(After(schema, s, es + [e]))
            && forall k :: k in After(schema, s, es + [e]).cache
                           <==> k in KeysOf(schema, u) && ResolvesInTime(schema, s.cache.Keys, u, k)
  {
    var t, u := After(schema, s, es), Upserts(es, e);
    var g := Digest(schema, t, e.report).0;
    CycleDigest(schema, s, es, e);
    WaitingMembers(schema, s.cache.Keys, u);
    assert (es + [e])[..|es|] == es;
    CycleRetry(schema, t, e, g);
    CacheAfter(schema, t, e);
    hide Cached;
    hide Possible;
    hide Digest;
    hide Absorb;
    hide After;
    assert After(schema, s, es + [e]) == Step(schema, t, e).state by {
      AfterLast(schema, s, es, e);
    }
    FullEndBoundary(schema, t, e);
    hide Step;
  }

  lemma AfterLast(schema: Schema, s: State, es: seq<Event>, e: Event)
    ensures After(schema, s, es + [e]) == Step(schema, After(schema, s, es), e).state
  {
    assert (es + [e])[..|es|] == es;
  }

  lemma FullEndBoundary(schema: Schema, s: State, e: Event)
    requires e.report.kind == FullEnd
    ensures Boundary(Step(schema, s, e).state)
  {
    hide Digest;
    hide Reprocess;
  }

  lemma CycleRetry(schema: Schema, t: State, e: Event, g: Flow)
    requires g == Digest(schema, t, e.report).0 && e.report.kind == FullEnd && Possible(schema, t, e)
    requires Keyed(schema, g.parked) && Single(g.parked)
    ensures forall k :: k in Absorb(schema, t, e).0.cache
                        <==> Cached(schema, g.cache.Keys, g.parked, |TypesOf(g.parked)|, 0, k)
  {
    hide Ranged;
    hide Cached;
    RetryReachesFixpointIff(schema, g, e.passes);
  }

  // ---------------------------------------------------- what is cached for a key

  /** Of the objects of key k among os, the one that n passes and then the positions below i of
      one more put last: each is put in the first pass within which it resolves, and a pass goes
      through the list in order. */
  ghost function LastPut(schema: Schema, base: set<string>, os: seq<Mo>, n: nat, i: nat, k: string): (r: Option<Mo>)
    requires i <= |os|
    ensures r.Some? ==> r.value in os && KeyOf(schema, r.value) == Some(k)
    decreases n, i
  {
    if i == 0 then (if n == 0 then None else LastPut(schema, base, os, n - 1, |os|, k))
    else
      var o := os[i - 1];
      if KeyOf(schema, o) == Some(k) && Within(schema, base, os, n + 1, i - 1) && !Within(schema, base, os, n, i - 1)
      then Some(o)
      else LastPut(schema, base, os, n, i - 1, k)
  }

  /** c holds last under k, or, without one, what before holds. */
  predicate Holds(c: Cache, before: Cache, last: Option<Mo>, k: string)
  {
    if last.Some? then k in c && c[k] == last.value
    else (k in c <==> k in before) && (k in before ==> c[k] == before[k])
  }

  lemma HoldsNext(schema: Schema, f: Flow, o: Mo, before: Cache, last: Option<Mo>, k: string)
    requires Holds(f.cache, before, last, k) && KeyOf(schema, o).Some?
    ensures Holds(RetryOne(schema, f, o).cache, before,
                  if KeyOf(schema, o) == Some(k) && Resolvable(f.cache.Keys, o) then Some(o) else last, k)
  {
    hide Resolvable;
    hide KeyOf;
  }

  lemma {:induction false} PassHolds(schema: Schema, base: set<string>, os: seq<Mo>, n: nat, i: nat, f: Flow,
      before: Cache, k: string)
    requires Keyed(schema, os) && i <= |os| && f.parked == []
    requires forall x :: x in f.cache <==> Cached(schema, base, os, n, 0, x)
    requires Holds(f.cache, before, LastPut(schema, base, os, n, 0, k), k)
    ensures Holds(RetryAll(schema, f, Left(schema, base, os, n, i)).cache, before,
                  LastPut(schema, base, os, n, i, k), k)
  {
    hide Within;
    hide Cached;
    hide KeyOf;
    hide Holds;
    hide RetryOne;
    hide Resolvable;
    if i > 0 {
      var j: nat := i - 1;
      PassHolds(schema, base, os, n, j, f, before, k);
      PassMidway(schema, base, os, n, j, f);
      var left := Left(schema, base, os, n, j);
      var h := RetryAll(schema, f, left);
      assert os[j] in os;
      if Within(schema, base, os, n, j) {
        assert Left(schema, base, os, n, i) == left;
      } else {
        ResolvedByVisit(schema, base, os, n, j, h.cache.Keys);
        RetryNext(schema, f, left, os[j]);
        HoldsNext(schema, h, os[j], before, LastPut(schema, base, os, n, j, k), k);
      }
    }
  }

  lemma RoundHolds(schema: Schema, base: set<string>, os: seq<Mo>, n: nat, f: Flow, before: Cache, k: string)
    requires Keyed(schema, os) && f.parked == Left(schema, base, os, n, |os|)
    requires forall x :: x in f.cache <==> Cached(schema, base, os, n, 0, x)
    requires Holds(f.cache, before, LastPut(schema, base, os, n, 0, k), k)
    ensures Holds(RetryPass(schema, f).cache, before, LastPut(schema, base, os, n + 1, 0, k), k)
  {
    hide Cached;
    hide Holds;
    hide Left;
    PassHolds(schema, base, os, n, |os|, f.(parked := []), before, k);
  }

  /** Passes over a parked list leave under each key the object they put there last. */
  lemma {:induction false} RoundsHold(schema: Schema, n: nat, f: Flow, k: string)
    requires Keyed(schema, f.parked)
    ensures Holds(RetryRounds(schema, n, f).cache, f.cache,
                  LastPut(schema, f.cache.Keys, f.parked, n, 0, k), k)
  {
    hide RetryRounds;
    hide RetryPass;
    hide LastPut;
    hide Cached;
    hide Left;
    hide Keyed;
    hide Holds;
    if n > 0 {
      RoundsHold(schema, n - 1, f, k);
      RoundsCacheExactly(schema, n - 1, f);
      RoundsLast(schema, n - 1, f);
      RoundHolds(schema, f.cache.Keys, f.parked, n - 1, RetryRounds(schema, n - 1, f), f.cache, k);
    } else {
      NothingPut(schema, f, k);
    }
  }

  lemma NothingPut(schema: Schema, f: Flow, k: string)
    ensures LastPut(schema, f.cache.Keys, f.parked, 0, 0, k) == None && RetryRounds(schema, 0, f) == f
    ensures Holds(f.cache, f.cache, None, k)
  {
  }

  /** An object of key k among os resolves within n passes, or within one more if it stands below i. */
  ghost predicate Puts(schema: Schema, base: set<string>, os: seq<Mo>, n: nat, i: nat, k: string)
  {
    exists j: nat :: j < |os| && KeyOf(schema, os[j]) == Some(k)
      && if j < i then Within(schema, base, os, n + 1, j) else n > 0 && Within(schema, base, os, n, j)
  }

  lemma PutsNext(schema: Schema, base: set<string>, os: seq<Mo>, n: nat, i: nat, k: string)
    requires i < |os|
    ensures Puts(schema, base, os, n, i + 1, k)
            <==> Puts(schema, base, os, n, i, k)
                 || (KeyOf(schema, os[i]) == Some(k) && Within(schema, base, os, n + 1, i))
  {
    if Within(schema, base, os, n, i) {
      WithinMore(schema, base, os, n, i);
    }
  }

  lemma PutsAgain(schema: Schema, base: set<string>, os: seq<Mo>, n: nat, k: string)
    ensures Puts(schema, base, os, n, |os|, k) <==> Puts(schema, base, os, n + 1, 0, k)
    ensures !Puts(schema, base, os, 0, 0, k)
  {
    hide Within;
    hide KeyOf;
  }

  lemma PutBefore(schema: Schema, base: set<string>, os: seq<Mo>, n: nat, i: nat, k: string)
    requires i < |os| && KeyOf(schema, os[i]) == Some(k) && Within(schema, base, os, n, i)
    ensures Puts(schema, base, os, n, i, k)
  {
  }

  /** Something is put under k exactly when an object of that key resolves in time. */
  lemma {:induction false} LastPutIff(schema: Schema, base: set<string>, os: seq<Mo>, n: nat, i: nat, k: string)
    requires i <= |os|
    ensures LastPut(schema, base, os, n, i, k).Some? <==> Puts(schema, base, os, n, i, k)
    decreases n, i
  {
    hide KeyOf;
    hide Puts;
    hide Within;
    if i == 0 {
      PutsAgain(schema, base, os, if n == 0 then 0 else n - 1, k);
      if n > 0 {
        LastPutIff(schema, base, os, n - 1, |os|, k);
      }
    } else {
      LastPutIff(schema, base, os, n, i - 1, k);
      PutsNext(schema, base, os, n, i - 1, k);
      if KeyOf(schema, os[i - 1]) == Some(k) && Within(schema, base, os, n, i - 1) {
        PutBefore(schema, base, os, n, i - 1, k);
      }
    }
  }

  /** What the passes of the full end put under k last. */
  ghost function Retried(schema: Schema, keys: set<string>, u: seq<Mo>, k: string): Option<Mo>
  {
    var p := Waiting(schema, keys, u);
    LastPut(schema, KeysAfter(schema, keys, u), p, |TypesOf(p)|, 0, k)
  }

  /** After a collection of objects without nil values, each with at most one relationship, what
      is cached for a reported key is the waiting object of that key that the retry put last;
      if it put none, an object with every property of the last accepted upsert of the key; and
      if none was accepted either, what was cached before. */
  lemma CycleCaches(schema: Schema, s: State, es: seq<Event>, e: Event, k: string)
    requires Cycle(schema, s, es, e) && AtMostOne(Upserts(es, e)) && forall o :: o in Upserts(es, e) ==> NoNulls(o)
    requires k in KeysOf(schema, Upserts(es, e))
    ensures var u, c := Upserts(es, e), After(schema, s, es + [e]).cache;
            var retried, last := Retried(schema, s.cache.Keys, u, k), LastAccepted(schema, s.cache.Keys, u, k);
            if retried.Some? then k in c && c[k] == retried.value
            else if last.Some? then k in c && Covers(c[k], last.value)
            else (k in c <==> k in s.cache) && (k in c ==> c[k] == s.cache[k])
  {
    var t, u := After(schema, s, es), Upserts(es, e);
    var g := Digest(schema, t, e.report).0;
    CycleDigest(schema, s, es, e);
    WaitingMembers(schema, s.cache.Keys, u);
    IngestCachesLast(schema, Flow(s.cache, [], []), u, k);
    RetryHolds(schema, t, e, g, k);
    KeptWhenReported(schema, t, e, k);
    AfterLast(schema, s, es, e);
    hide Digest;
    hide Absorb;
    hide After;
    hide Step;
    hide Possible;
    hide Ingest;
    hide LastPut;
    hide KeysAfter;
    hide Waiting;
    hide KeysOf;
    hide Covers;
    hide NoNulls;
  }

  lemma RetryHolds(schema: Schema, t: State, e: Event, g: Flow, k: string)
    requires g == Digest(schema, t, e.report).0 && e.report.kind == FullEnd && Possible(schema, t, e)
    requires Keyed(schema, g.parked) && Single(g.parked)
    ensures Holds(Absorb(schema, t, e).0.cache, g.cache,
                  LastPut(schema, g.cache.Keys, g.parked, |TypesOf(g.parked)|, 0, k), k)
  {
    ReprocessIsRetry(schema, g, e.passes);
    hide Ranged;
    RoundsHold(schema, |TypesOf(g.parked)|, g, k);
    hide RetryRounds;
    hide LastPut;
  }

  /** No two reported objects have the same key. */
  predicate ReportedOnce(schema: Schema, u: seq<Mo>)
  {
    forall i, j :: 0 <= i < j < |u| && KeyOf(schema, u[i]).Some? ==> KeyOf(schema, u[i]) != KeyOf(schema, u[j])
  }

  /** The i-th upsert of the collection, if it has to wait, resolves in time. */
  ghost predicate Retrieved(schema: Schema, keys: set<string>, u: seq<Mo>, o: Mo)
  {
    var p := Waiting(schema, keys, u);
    exists j: nat :: j < |p| && p[j] == o && Within(schema, KeysAfter(schema, keys, u), p, |TypesOf(p)|, j)
  }

  /** With one report per key the last accepted upsert of a key is the only one of that key. */
  lemma {:induction false} LastIsOnly(schema: Schema, keys: set<string>, u: seq<Mo>, i: nat)
    requires ReportedOnce(schema, u) && i < |u| && KeyOf(schema, u[i]).Some?
    ensures LastAccepted(schema, keys, u, KeyOf(schema, u[i]).value)
            == if Accepted(schema, KeysAfter(schema, keys, u[..i]), u[i]) then Some(u[i]) else None
    decreases |u|
  {
    hide KeyOf;
    hide Resolvable;
    hide KeysAfter;
    var n, k := |u| - 1, KeyOf(schema, u[i]).value;
    if i < n {
      assert u[..n][..i] == u[..i];
      LastIsOnly(schema, keys, u[..n], i);
    } else {
      NeverAccepted(schema, keys, u[..n], k);
    }
  }

  lemma {:induction false} NeverAccepted(schema: Schema, keys: set<string>, u: seq<Mo>, k: string)
    requires forall i :: 0 <= i < |u| ==> KeyOf(schema, u[i]) != Some(k)
    ensures LastAccepted(schema, keys, u, k) == None
  {
    hide KeyOf;
    if u != [] {
      NeverAccepted(schema, keys, u[..|u| - 1], k);
    }
  }

  /** The object waits, and it is the only one of its key that does. */
  lemma {:induction false} WaitingOnly(schema: Schema, keys: set<string>, u: seq<Mo>, i: nat)
    requires ReportedOnce(schema, u) && i < |u| && KeyOf(schema, u[i]).Some?
    ensures u[i] in Waiting(schema, keys, u) <==> !Resolvable(KeysAfter(schema, keys, u[..i]), u[i])
    ensures forall o :: o in Waiting(schema, keys, u) && KeyOf(schema, o) == KeyOf(schema, u[i]) ==> o == u[i]
    decreases |u|
  {
    hide Resolvable;
    hide KeysAfter;
    var n := |u| - 1;
    WaitingMembers(schema, keys, u[..n]);
    hide KeyOf;
    if i < n {
      assert u[..n][..i] == u[..i];
      WaitingOnly(schema, keys, u[..n], i);
    }
  }

  /** Then the retry puts the object, if it waits and resolves in time, and no other of its key. */
  lemma RetriedIff(schema: Schema, keys: set<string>, u: seq<Mo>, i: nat)
    requires ReportedOnce(schema, u) && i < |u| && KeyOf(schema, u[i]).Some?
    ensures Retried(schema, keys, u, KeyOf(schema, u[i]).value)
            == if Retrieved(schema, keys, u, u[i]) then Some(u[i]) else None
  {
    var p, k := Waiting(schema, keys, u), KeyOf(schema, u[i]).value;
    WaitingOnly(schema, keys, u, i);
    LastPutIff(schema, KeysAfter(schema, keys, u), p, |TypesOf(p)|, 0, k);
    hide LastPut;
    hide Within;
    hide KeyOf;
    hide Waiting;
    hide KeysAfter;
    hide Resolvable;
  }

  /** After a collection of objects without nil values, each with at most one relationship and
      reported once: an object that was accepted, or that waited and resolves within the passes
      the full end makes, is what is cached for its key; any other leaves its key as it was. */
  lemma CycleCachesReports(schema: Schema, s: State, es: seq<Event>, e: Event, i: nat)
    requires Cycle(schema, s, es, e) && AtMostOne(Upserts(es, e))
    requires ReportedOnce(schema, Upserts(es, e)) && forall o :: o in Upserts(es, e) ==> NoNulls(o)
    requires i < |Upserts(es, e)| && KeyOf(schema, Upserts(es, e)[i]).Some?
    ensures var u, c := Upserts(es, e), After(schema, s, es + [e]).cache;
            var o, k := u[i], KeyOf(schema, u[i]).value;
            if Resolvable(KeysAfter(schema, s.cache.Keys, u[..i]), o) || Retrieved(schema, s.cache.Keys, u, o)
            then k in c && Covers(c[k], o)
            else (k in c <==> k in s.cache) && (k in c ==> c[k] == s.cache[k])
  {
    var u := Upserts(es, e);
    var o, k := u[i], KeyOf(schema, u[i]).value;
    assert o in u && k in KeysOf(schema, u);
    CycleCaches(schema, s, es, e, k);
    LastIsOnly(schema, s.cache.Keys, u, i);
    RetriedIff(schema, s.cache.Keys, u, i);
    assert Covers(o, o);
    hide After;
    hide Retrieved;
    hide Retried;
    hide Resolvable;
    hide KeysAfter;
    hide KeysOf;
    hide Covers;
    hide NoNulls;
  }

  lemma KeptWhenReported(schema: Schema, t: State, e: Event, k: string)
    requires Sound(schema, t) && e.report.kind == FullEnd && Possible(schema, t, e)
    requires k in ReportedAfter(schema, t, e.report)
    ensures var f, c := Absorb(schema, t, e).0, Step(schema, t, e).state.cache;
            (k in c <==> k in f.cache) && (k in c ==> c[k] == f.cache[k])
  {
    SweptKeys(schema, t, e);
    AbsorbSound(schema, t, e);
    StepSweeps(schema, t, e);
  }

  // ------------------------------------------------------ over collected runs

  /** Whenever the collector is between two collections, so is the processing loop. */
  lemma {:induction false} IdleIsBoundary(schema: Schema, es: seq<Event>)
    requires CollectsAll(Idle, ReportsOf(es)) == Idle
    ensures Boundary(After(schema, FRESH, es))
  {
    if es != [] {
      var n := |es| - 1;
      assert ReportsOf(es)[..n] == ReportsOf(es[..n]) && ReportsOf(es)[n] == es[n].report;
      hide Step;
      FullEndBoundary(schema, After(schema, FRESH, es[..n]), es[n]);
    }
  }

  /** The reports of one collection, as the collector makes them. */
  predicate OneCollection(reps: seq<Report>)
  {
    && reps != [] && CollectsAll(Idle, reps) == Idle
    && (forall i :: 0 <= i < |reps| ==> reps[i].deletes == [] && (i > 0 ==> reps[i].upserts != []))
  }

  lemma {:induction false} CollectsTo(reps: seq<Report>)
    requires forall i :: 0 <= i < |reps| ==> reps[i].deletes == [] && (i > 0 ==> reps[i].upserts != [])
    requires CollectsAll(Idle, reps) != Astray
    ensures CollectsAll(Idle, reps) == Collecting ==>
              forall i :: 0 <= i < |reps| ==> reps[i].kind == FullStart || reps[i].kind == FullSegment
    ensures CollectsAll(Idle, reps) == Idle && reps != [] ==>
              var n := |reps| - 1;
              && reps[n].kind == FullEnd
              && (forall i :: 0 <= i < n ==> reps[i].kind == FullStart || reps[i].kind == FullSegment)
  {
    if reps != [] {
      CollectsTo(reps[..|reps| - 1]);
    }
  }

  /** In any run fed by the collector the reports of one collection are a cycle of the loop. */
  lemma CollectedCycle(schema: Schema, before: seq<Event>, es: seq<Event>, e: Event)
    requires CollectsAll(Idle, ReportsOf(before)) == Idle && (forall x :: x in before ==> x.report.kind != Unrecognised)
    requires OneCollection(ReportsOf(es + [e]))
    requires Possible(schema, After(schema, After(schema, FRESH, before), es), e)
    ensures Cycle(schema, After(schema, FRESH, before), es, e)
  {
    IdleIsBoundary(schema, before);
    ReachableInvariant(schema, before);
    CollectionShape(es, e);
    hide Possible;
    hide After;
    hide OneCollection;
  }

  lemma CollectionShape(es: seq<Event>, e: Event)
    requires OneCollection(ReportsOf(es + [e]))
    ensures Filling(es) && Undeleted(e) && e.report.kind == FullEnd
  {
    var all := es + [e];
    var reps := ReportsOf(all);
    ReportsAt(all);
    CollectsTo(reps);
    hide CollectsAll;
    hide ReportsOf;
    assert reps[|es|] == e.report;
    forall i | 0 <= i < |es|
      ensures Undeleted(es[i]) && (es[i].report.kind == FullStart || es[i].report.kind == FullSegment)
    {
      assert all[i] == es[i] && reps[i] == es[i].report;
    }
  }

  lemma {:induction false} ReportsAt(es: seq<Event>)
    ensures forall i :: 0 <= i < |es| ==> ReportsOf(es)[i] == es[i].report
  {
    if es != [] {
      ReportsAt(es[..|es| - 1]);
    }
  }

  // --------------------------------------------------------- nothing to say

  /** Once the first collection is through, a report of nothing but what is cached, without
      deletes and with nothing parked, sends no message and changes neither cache nor parked
      objects; at a full end, if all cached keys were reported in the collection. */
  lemma RepeatSendsNothing(schema: Schema, s: State, e: Event)
    requires Sound(schema, s) && s.parked == [] && !s.sendFull && Undeleted(e) && Possible(schema, s, e)
    requires Agreed(schema, s.cache, e.report.upserts) && Waiting(schema, s.cache.Keys, e.report.upserts) == []
    requires forall o :: o in e.report.upserts ==> NoNulls(o)
    requires e.report.kind == FullEnd ==> s.cache.Keys <= ReportedAfter(schema, s, e.report)
    ensures var out := Step(schema, s, e); out.messages == [] && out.state.cache == s.cache && out.state.parked == []
  {
    var f0 := Flow(s.cache, [], s.parked);
    IngestSilentIff(schema, f0, e.report.upserts);
    IngestParksExactly(schema, f0, e.report.upserts);
    DigestUndeleted(schema, s, e.report);
    var g := Digest(schema, s, e.report).0;
    assert g == f0;
    assert Absorb(schema, s, e) == (f0, []);
    if e.report.kind == FullEnd {
      SweptKeys(schema, s, e);
      StepSweeps(schema, s, e);
      SweepsNone(schema, s.cache, ReportedAfter(schema, s, e.report), e.order);
    }
  }

  lemma {:induction false} SweepsNone(schema: Schema, c: Cache, reported: set<string>, order: seq<string>)
    requires c.Keys <= reported
    ensures Sweep(c, reported, order) == (c, [])
  {
    if order != [] {
      SweepsNone(schema, c, reported, order[..|order| - 1]);
    }
  }

  // ------------------------------------------------------ reported more than once

  /** A parked object that resolves at the retry replaces whatever is cached under its key, even
      an object reported later. */
  lemma OlderReportWins(schema: Schema, s: State, e: Event, o: Mo, k: string)
    requires s.parked == [o] && KeyOf(schema, o) == Some(k) && Relations(o) != {} && Resolvable(s.cache.Keys, o)
    requires e.report == Report([], [], Incremental) && Possible(schema, s, e)
    ensures Step(schema, s, e).state.cache == s.cache[k := o]
  {
    assert Ingest(schema, Flow(s.cache, [], s.parked), []) == Flow(s.cache, [], [o]);
    assert Digest(schema, s, e.report) == (Flow(s.cache, [], [o]), []);
    ReprocessLone(schema, s.cache, o, k, e.passes);
    assert Absorb(schema, s, e) == (Flow(s.cache[k := o], [o], []), []);
  }
}
