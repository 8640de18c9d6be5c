/** Whole runs of inventory replication: the full-sync sweep, replica agreement after every
    report, and the grammar of the emitted message types. */
module InventoryStream {
  import opened Basics
  import opened InventoryCompaction
  import opened InventoryFixpoint
  import opened InventoryModel
  import opened InventoryRetry
  import opened InventoryReplica

  // ------------------------------------------------------------- sweeping

  /** Parked objects were reported in the current cycle. */
  ghost predicate ParkedReported(schema: Schema, s: State)
  {
    KeysOf(schema, s.parked) <= s.reported
  }

  lemma IngestOneKeys(schema: Schema, f: Flow, o: Mo)
    ensures var g := IngestOne(schema, f, o);
            var new_ := KeysOf(schema, [o]);
            && KeysOf(schema, g.parked) <= KeysOf(schema, f.parked) + new_
            && KeysOf(schema, g.out) <= KeysOf(schema, f.out) + new_
            && g.cache.Keys <= f.cache.Keys + new_
  {
    match KeyOf(schema, o)
    case None =>
    case Some(k) =>
      assert o in [o] && k in KeysOf(schema, [o]);
      KeysOfAppend(schema, f.parked, o);
      KeysOfAppend(schema, f.out, o);
      if k in f.cache && Diff(schema, o, f.cache[k]).Some? {
        DiffKeepsKey(schema, o, f.cache[k]);
        KeysOfAppend(schema, f.out, Diff(schema, o, f.cache[k]).value);
      }
  }

  /** Ingesting brings in no key from anywhere but the report. */
  lemma {:induction false} IngestKeys(schema: Schema, f: Flow, os: seq<Mo>)
    ensures var g := Ingest(schema, f, os);
            && KeysOf(schema, g.parked) <= KeysOf(schema, f.parked) + KeysOf(schema, os)
            && KeysOf(schema, g.out) <= KeysOf(schema, f.out) + KeysOf(schema, os)
            && g.cache.Keys <= f.cache.Keys + KeysOf(schema, os)
  {
    if os != [] {
      var n := |os| - 1;
      IngestKeys(schema, f, os[..n]);
      IngestOneKeys(schema, Ingest(schema, f, os[..n]), os[n]);
      assert os == os[..n] + [os[n]];
      KeysOfConcat(schema, os[..n], [os[n]]);
    }
  }

  lemma {:induction false} PutAllKeys(schema: Schema, f: Flow, ps: seq<Mo>)
    ensures var g := PutAll(schema, f, ps);
            && KeysOf(schema, g.out) <= KeysOf(schema, f.out) + KeysOf(schema, ps)
            && g.cache.Keys <= f.cache.Keys + KeysOf(schema, ps)
  {
    if ps != [] {
      var n := |ps| - 1;
      PutAllKeys(schema, f, ps[..n]);
      KeysOfAppend(schema, PutAll(schema, f, ps[..n]).out, ps[n]);
      KeysOfAppend(schema, ps[..n], ps[n]);
      assert ps == ps[..n] + [ps[n]];
    }
  }

  /** Where the keys of a report's outcome come from, before the retry. */
  lemma DigestKeys(schema: Schema, s: State, rep: Report)
    ensures var (g, ds) := Digest(schema, s, rep);
            && KeysOf(schema, g.parked) <= KeysOf(schema, s.parked) + KeysOf(schema, rep.upserts)
            && KeysOf(schema, g.out) <= KeysOf(schema, rep.upserts)
            && KeysOf(schema, ds) <= KeysOf(schema, rep.deletes)
            && g.cache.Keys <= (s.cache.Keys + KeysOf(schema, rep.upserts)) - KeysOf(schema, ds)
  {
    var f0 := Flow(s.cache, [], s.parked);
    IngestKeys(schema, f0, rep.upserts);
    DiscardRemoves(schema, Ingest(schema, f0, rep.upserts).cache, rep.deletes);
    assert KeysOf(schema, []) == {};
  }

  /** Where they come from before the sweep. */
  lemma AbsorbKeys(schema: Schema, s: State, e: Event)
    ensures var (f, ds) := Absorb(schema, s, e);
            var seen := KeysOf(schema, s.parked) + KeysOf(schema, e.report.upserts);
            && KeysOf(schema, f.parked) <= seen
            && KeysOf(schema, f.out) <= seen
            && KeysOf(schema, ds) <= KeysOf(schema, e.report.deletes)
            && f.cache.Keys <= (s.cache.Keys + KeysOf(schema, e.report.upserts)) - KeysOf(schema, ds) + seen
  {
    var g := Digest(schema, s, e.report).0;
    DigestKeys(schema, s, e.report);
    var ps := AbsorbPuts(schema, s, e);
    PutAllKeys(schema, Flow(g.cache, g.out, []), ps);
    assert KeysOf(schema, ps) <= KeysOf(schema, g.parked);
    assert KeysOf(schema, []) == {};
  }

  /** Reports of a recognised type keep parked objects within the reported keys. */
  lemma ParkedStayReported(schema: Schema, s: State, e: Event)
    requires ParkedReported(schema, s) && e.report.kind != Unrecognised
    ensures ParkedReported(schema, Step(schema, s, e).state)
  {
    AbsorbKeys(schema, s, e);
    if Retries(e.report.kind) {
      assert Step(schema, s, e).state.parked == [];
    }
  }

  /** A full end keeps exactly the cached keys reported in this cycle, and deletes no key it
      also upserts. */
  lemma FullEndSweeps(schema: Schema, s: State, e: Event)
    requires Sound(schema, s) && ParkedReported(schema, s)
    requires e.report.kind == FullEnd && Possible(schema, s, e)
    ensures var (f, ds) := Absorb(schema, s, e);
            var out := Step(schema, s, e);
            && out.state.cache.Keys == f.cache.Keys * (s.reported + KeysOf(schema, e.report.upserts))
            && KeysOf(schema, out.upserts) <= s.reported + KeysOf(schema, e.report.upserts)
            && KeysOf(schema, out.deletes[|ds|..]) !! KeysOf(schema, out.upserts)
            && out.state.reported == {}
  {
    var (f, ds) := Absorb(schema, s, e);
    AbsorbKeys(schema, s, e);
    AbsorbSound(schema, s, e);
    SweepRemoves(schema, f.cache, ReportedAfter(schema, s, e.report), e.order);
    StepSweeps(schema, s, e);
    assert KeysOf(schema, Step(schema, s, e).deletes[|ds|..])
        == (set k | k in e.order && k in f.cache && k !in ReportedAfter(schema, s, e.report)) by {
      assert Step(schema, s, e).deletes == ds + Sweep(f.cache, ReportedAfter(schema, s, e.report), e.order).1;
      assert Step(schema, s, e).deletes[|ds|..] == Sweep(f.cache, ReportedAfter(schema, s, e.report), e.order).1;
    }
  }

  /** The parked objects that resolve within the passes made. */
  ghost function Unparked(schema: Schema, g: Flow): seq<Mo>
  {
    Gone(schema, g.cache.Keys, g.parked, |TypesOf(g.parked)|, |g.parked|)
  }

  lemma FullEndProduces(schema: Schema, s: State, e: Event)
    requires Sound(schema, s) && Single(s.parked) && AtMostOne(e.report.upserts)
    requires Retries(e.report.kind) && Possible(schema, s, e)
    ensures var g, f := Digest(schema, s, e.report).0, Absorb(schema, s, e).0;
            && multiset(f.out) == multiset(g.out) + multiset(Unparked(schema, g))
            && Keyed(schema, g.parked)
            && KeysOf(schema, Unparked(schema, g)) <= f.cache.Keys
  {
    var g := Digest(schema, s, e.report).0;
    IngestParks(schema, Flow(s.cache, [], s.parked), e.report.upserts);
    ReprocessIsRetry(schema, g, e.passes);
    hide Ranged;
    hide Single;
    hide Keyed;
    RoundsProduceExactly(schema, |TypesOf(g.parked)|, g);
    UnparkedCached(schema, g);
    hide Unparked;
    hide RetryRounds;
    hide KeysOf;
  }

  lemma UnparkedCached(schema: Schema, g: Flow)
    requires Keyed(schema, g.parked)
    ensures KeysOf(schema, Unparked(schema, g)) <= Retry(schema, g).cache.Keys
  {
    var n := |TypesOf(g.parked)|;
    RoundsCacheExactly(schema, n, g);
    GoneMembers(schema, g.cache.Keys, g.parked, n, |g.parked|);
    hide Gone;
    hide Within;
    hide RetryRounds;
    forall o | o in Unparked(schema, g) && KeyOf(schema, o).Some?
      ensures KeyOf(schema, o).value in Retry(schema, g).cache
    {
      var j :| 0 <= j < |g.parked| && Within(schema, g.cache.Keys, g.parked, n, j) && g.parked[j] == o;
      WithinCached(schema, g.cache.Keys, g.parked, n, j);
    }
  }

  lemma SweptKeys(schema: Schema, s: State, e: Event)
    requires Sound(schema, s) && e.report.kind == FullEnd && Possible(schema, s, e)
    ensures var (f, ds) := Absorb(schema, s, e);
            var out := Step(schema, s, e);
            && out.upserts == f.out && |ds| <= |out.deletes|
            && KeysOf(schema, out.deletes[|ds|..]) == f.cache.Keys - ReportedAfter(schema, s, e.report)
  {
    var (f, ds) := Absorb(schema, s, e);
    AbsorbSound(schema, s, e);
    SweepRemoves(schema, f.cache, ReportedAfter(schema, s, e.report), e.order);
    assert Step(schema, s, e).deletes == ds + Sweep(f.cache, ReportedAfter(schema, s, e.report), e.order).1;
    assert Step(schema, s, e).deletes[|ds|..] == Sweep(f.cache, ReportedAfter(schema, s, e.report), e.order).1;
  }

  lemma MultisetKeys(schema: Schema, os: seq<Mo>, xs: seq<Mo>, ys: seq<Mo>)
    requires multiset(os) == multiset(xs) + multiset(ys)
    ensures KeysOf(schema, os) == KeysOf(schema, xs) + KeysOf(schema, ys)
  {
    hide KeyOf;
    forall o
      ensures o in os <==> o in xs || o in ys
    {
      assert o in os <==> o in multiset(os);
      assert o in xs <==> o in multiset(xs);
      assert o in ys <==> o in multiset(ys);
    }
  }

  /** For objects with at most one relationship: a full end deletes no key it also upserts if and
      only if every parked object that resolves within the passes made was reported in this cycle. */
  lemma FullEndSweepsIff(schema: Schema, s: State, e: Event)
    requires Sound(schema, s) && Single(s.parked) && AtMostOne(e.report.upserts)
    requires e.report.kind == FullEnd && Possible(schema, s, e)
    ensures var g, ds := Digest(schema, s, e.report).0, Absorb(schema, s, e).1;
            var out := Step(schema, s, e);
            |ds| <= |out.deletes| &&
            (KeysOf(schema, out.deletes[|ds|..]) !! KeysOf(schema, out.upserts)
             <==> forall i: nat :: i < |g.parked| && Within(schema, g.cache.Keys, g.parked, |TypesOf(g.parked)|, i)
                    ==> KeysOf(schema, [g.parked[i]]) <= ReportedAfter(schema, s, e.report))
  {
    var g, f := Digest(schema, s, e.report).0, Absorb(schema, s, e).0;
    var reported := ReportedAfter(schema, s, e.report);
    FullEndProduces(schema, s, e);
    SweptKeys(schema, s, e);
    MultisetKeys(schema, f.out, g.out, Unparked(schema, g));
    DigestKeys(schema, s, e.report);
    assert KeysOf(schema, g.out) <= reported;
    UnparkedReported(schema, g, reported);
    hide Step;
    hide Absorb;
    hide Digest;
    hide Possible;
    hide Within;
    hide KeysOf;
    hide Unparked;
  }

  lemma UnparkedReported(schema: Schema, g: Flow, reported: set<string>)
    ensures KeysOf(schema, Unparked(schema, g)) <= reported
            <==> forall i: nat :: i < |g.parked| && Within(schema, g.cache.Keys, g.parked, |TypesOf(g.parked)|, i)
                   ==> KeysOf(schema, [g.parked[i]]) <= reported
  {
    var n := |TypesOf(g.parked)|;
    GoneMembers(schema, g.cache.Keys, g.parked, n, |g.parked|);
    hide Within;
    hide KeyOf;
    hide Gone;
    forall i: nat | i < |g.parked| && Within(schema, g.cache.Keys, g.parked, n, i)
      ensures g.parked[i] in Unparked(schema, g)
    {
    }
    if KeysOf(schema, Unparked(schema, g)) <= reported {
      forall i: nat | i < |g.parked| && Within(schema, g.cache.Keys, g.parked, n, i)
        ensures KeysOf(schema, [g.parked[i]]) <= reported
      {
        assert KeysOf(schema, [g.parked[i]]) <= KeysOf(schema, Unparked(schema, g));
      }
    } else {
      var k :| k in KeysOf(schema, Unparked(schema, g)) && k !in reported;
      var o :| o in Unparked(schema, g) && KeyOf(schema, o) == Some(k);
      var j :| 0 <= j < |g.parked| && Within(schema, g.cache.Keys, g.parked, n, j) && g.parked[j] == o;
      assert o in [g.parked[j]] && k in KeysOf(schema, [g.parked[j]]);
    }
  }

  /** A single parked object with a relationship that resolves is put in the cache and produced. */
  lemma ReprocessLone(schema: Schema, c: Cache, o: Mo, k: string, passes: seq<seq<seq<string>>>)
    requires KeyOf(schema, o) == Some(k) && Resolvable(c.Keys, o) && Relations(o) != {}
    requires var f := Flow(c, [], [o]);
             Ranged(schema, |TypesOf(f.parked)|, f, passes) && Reprocess(schema, f, passes).Some?
    ensures Reprocess(schema, Flow(c, [], [o]), passes) == Some(Flow(c[k := o], [o], []))
  {
    var f, q := Flow(c, [], [o]), Compaction(c, [], [o], 0, false);
    assert TypesOf([o]) == {TypeOf(o).value};
    assert |TypesOf(f.parked)| == 1;
    var orders := passes[0];
    assert |orders| == 1 && Fit(schema, q, orders);
    assert orders[..0] == [] && VisitAll(schema, q, []) == q;
    assert Lists(orders[0], o.Keys);
    ResolvableVisit(c.Keys, o, orders[0]);
    assert Met(o, orders[0]) == Relations(o);
    assert VisitAll(schema, q, orders) == VisitOne(schema, q, 0, orders[0]);
    assert VisitOne(schema, q, 0, orders[0]) == Compaction(c[k := o], [] + [o], [o], 0, false);
    var g := Flow(c[k := o], [o], []);
    assert [] + [o] == [o] && [o][..0] == [];
    assert Pass(schema, f, orders) == Some(g);
    assert Passes(schema, 0, g, passes[1..]) == Some(g);
    assert Passes(schema, 1, f, passes) == Some(g);
  }

  /** An object parked by a report of an unrecognised type, resolved at a later full end that
      does not report it again, is upserted and deleted by that same full end. */
  lemma UnrecognisedReportBreaksSweep(schema: Schema, s: State, e: Event, o: Mo, k: string)
    requires Sound(schema, s) && s.parked == [o] && KeyOf(schema, o) == Some(k) && k !in s.reported
    requires e.report == Report([], [], FullEnd) && Possible(schema, s, e)
    requires Resolvable(s.cache.Keys, o) && Relations(o) != {}
    ensures var out := Step(schema, s, e);
            o in out.upserts && k in KeysOf(schema, out.deletes) && k !in out.state.cache
  {
    var g := Flow(s.cache[k := o], [o], []);
    assert Ingest(schema, Flow(s.cache, [], s.parked), []) == Flow(s.cache, [], [o]);
    assert Digest(schema, s, e.report) == (Flow(s.cache, [], [o]), []);
    ReprocessLone(schema, s.cache, o, k, e.passes);
    assert Absorb(schema, s, e) == (g, []);
    assert CacheKeyed(schema, g.cache);
    StepSweeps(schema, s, e);
    SweepRemoves(schema, g.cache, s.reported + KeysOf(schema, []), e.order);
    assert KeysOf(schema, []) == {};
    assert k in e.order;
  }

  // ---------------------------------------------------- replica over runs

  /** What the agreement asks of a report: a recognised type, no nil property, and deletes
      of other objects than the ones upserted or still parked. */
  ghost predicate Admissible(schema: Schema, s: State, rep: Report)
  {
    && rep.kind != Unrecognised
    && (forall o :: o in rep.upserts ==> NoNulls(o))
    && KeysOf(schema, rep.deletes) !! KeysOf(schema, rep.upserts) + KeysOf(schema, s.parked)
  }

  /** The invariant of every reachable state. */
  ghost predicate Invariant(schema: Schema, s: State)
  {
    Sound(schema, s) && ParkedReported(schema, s)
  }

  lemma StepDisjoint(schema: Schema, s: State, e: Event)
    requires Invariant(schema, s) && Admissible(schema, s, e.report) && Possible(schema, s, e)
    ensures var out := Step(schema, s, e);
            && KeysOf(schema, out.upserts) !! KeysOf(schema, out.deletes)
            && KeysOf(schema, Absorb(schema, s, e).1) !! out.state.cache.Keys
  {
    var (f, ds) := Absorb(schema, s, e);
    AbsorbKeys(schema, s, e);
    AbsorbSound(schema, s, e);
    StepSweeps(schema, s, e);
    if e.report.kind == FullEnd {
      FullEndSweeps(schema, s, e);
    } else {
      assert Step(schema, s, e).deletes == ds;
    }
  }

  /** One report keeps the invariant and the agreement, whichever order the receiver uses. */
  lemma StepMirrors(schema: Schema, s: State, e: Event, recv: Receiver, r: Replica)
    requires Invariant(schema, s) && Admissible(schema, s, e.report) && Possible(schema, s, e)
    requires Mirrors(r, s.cache)
    ensures var out := Step(schema, s, e);
            Invariant(schema, out.state) && Mirrors(ReceiveAll(schema, recv, r, out.messages), out.state.cache)
  {
    StepDisjoint(schema, s, e);
    ReportMirrors(schema, s, e, r);
    ReceivedOf(schema, UpsertsFirst, s, e, r);
    ReceivedOf(schema, recv, s, e, r);
    ParkedStayReported(schema, s, e);
  }

  /** In every state reachable with recognised report types, the parked objects were reported
      in the current cycle, and everything cached or parked has a key. */
  lemma {:induction false} ReachableInvariant(schema: Schema, es: seq<Event>)
    requires forall e :: e in es ==> e.report.kind != Unrecognised
    ensures Invariant(schema, After(schema, FRESH, es))
  {
    if es == [] {
      assert KeysOf(schema, FRESH.parked) == {};
    } else {
      var n := |es| - 1;
      ReachableInvariant(schema, es[..n]);
      var s := After(schema, FRESH, es[..n]);
      AbsorbSound(schema, s, es[n]);
      StepSweeps(schema, s, es[n]);
      ParkedStayReported(schema, s, es[n]);
    }
  }

  /** Every event of the run is admissible where it happens. */
  ghost predicate AdmissibleRun(schema: Schema, s: State, es: seq<Event>)
  {
    es == [] || (var n := |es| - 1;
                 AdmissibleRun(schema, s, es[..n]) && Admissible(schema, After(schema, s, es[..n]), es[n].report))
  }

  /** Replica agreement: after any run, folding every message sent so far gives a replica
      with exactly the cached keys that agrees with the cache on every cached property. */
  lemma {:induction false} ReplicaAgreement(schema: Schema, recv: Receiver, es: seq<Event>)
    requires Run(schema, FRESH, es) && AdmissibleRun(schema, FRESH, es)
    ensures Invariant(schema, After(schema, FRESH, es))
    ensures Mirrors(ReceiveAll(schema, recv, map[], Sent(schema, FRESH, es)), After(schema, FRESH, es).cache)
  {
    if es == [] {
      assert KeysOf(schema, FRESH.parked) == {};
    } else {
      var n := |es| - 1;
      ReplicaAgreement(schema, recv, es[..n]);
      var s := After(schema, FRESH, es[..n]);
      var sent := Sent(schema, FRESH, es[..n]);
      StepMirrors(schema, s, es[n], recv, ReceiveAll(schema, recv, map[], sent));
      ReceiveConcat(schema, recv, map[], sent, Step(schema, s, es[n]).messages);
    }
  }

  /** A report that deletes the key of a parked object whose relationships resolve leaves the
      replica without an object that the cache holds. */
  lemma DeleteOfParkedDiverges(schema: Schema, s: State, e: Event, o: Mo, d: Mo, k: string, r: Replica)
    requires Sound(schema, s) && Mirrors(r, s.cache)
    requires s.parked == [o] && KeyOf(schema, o) == Some(k) == KeyOf(schema, d) && k in s.cache
    requires Resolvable(s.cache.Keys - {k}, o) && Relations(o) != {}
    requires e.report == Report([], [d], Incremental) && Possible(schema, s, e)
    ensures var out := Step(schema, s, e);
            k in out.state.cache && k !in ReceiveAll(schema, UpsertsFirst, r, out.messages)
  {
    var dels := [d];
    assert dels[..0] == [] && Discard(schema, s.cache, []) == (s.cache, []);
    assert Discard(schema, s.cache, dels) == (s.cache - {k}, [] + [d]);
    var c := s.cache - {k};
    assert c.Keys == s.cache.Keys - {k};
    var g := Flow(c[k := o], [o], []);
    assert Ingest(schema, Flow(s.cache, [], s.parked), []) == Flow(s.cache, [], [o]);
    assert Digest(schema, s, e.report) == (Flow(c, [], [o]), [] + [d]);
    ReprocessLone(schema, c, o, k, e.passes);
    assert Absorb(schema, s, e) == (g, [] + [d]);
    var out := Step(schema, s, e);
    assert out.deletes == [d] && d in out.deletes;
    ReceivedOf(schema, UpsertsFirst, s, e, r);
  }

  lemma CacheAfter(schema: Schema, s: State, e: Event)
    requires Sound(schema, s) && Possible(schema, s, e)
    ensures var f := Absorb(schema, s, e).0;
            Step(schema, s, e).state.cache.Keys
            == if e.report.kind == FullEnd then f.cache.Keys * ReportedAfter(schema, s, e.report) else f.cache.Keys
  {
    AbsorbSound(schema, s, e);
    SweepRemoves(schema, Absorb(schema, s, e).0.cache, ReportedAfter(schema, s, e.report), e.order);
  }

  /** The keys cached before the sweep, for objects with at most one relationship. */
  lemma KeysAfterRetry(schema: Schema, s: State, e: Event)
    requires Sound(schema, s) && Single(s.parked) && AtMostOne(e.report.upserts) && Possible(schema, s, e)
    ensures var g := Digest(schema, s, e.report).0;
            forall k :: k in Absorb(schema, s, e).0.cache
                        <==> k in g.cache
                             || (Retries(e.report.kind)
                                 && Cached(schema, g.cache.Keys, g.parked, |TypesOf(g.parked)|, 0, k))
  {
    var g := Digest(schema, s, e.report).0;
    hide Ranged;
    if Retries(e.report.kind) {
      IngestParks(schema, Flow(s.cache, [], s.parked), e.report.upserts);
      RetryReachesFixpointIff(schema, g, e.passes);
    }
  }

  /** The retry of g puts k back in the cache within the passes it makes. */
  ghost predicate PutsBack(schema: Schema, g: Flow, k: string)
  {
    Cached(schema, g.cache.Keys, g.parked, |TypesOf(g.parked)|, 0, k)
  }

  /** The report deletes a cached key that the retry puts back, and a full end does not sweep it. */
  ghost predicate Revives(schema: Schema, s: State, e: Event, k: string)
  {
    var (g, ds) := Digest(schema, s, e.report);
    && k in KeysOf(schema, ds) && Retries(e.report.kind) && PutsBack(schema, g, k)
    && (e.report.kind == FullEnd ==> k in ReportedAfter(schema, s, e.report))
  }

  /** Replica agreement after one report, for a receiver that applies upserts first, in terms of
      what can be checked before the retry: it fails exactly when the report deletes a cached key
      that a parked object puts back within the passes made, and that a full end does not sweep. */
  lemma ReportAgreesIff(schema: Schema, s: State, e: Event, r: Replica)
    requires Sound(schema, s) && Single(s.parked) && AtMostOne(e.report.upserts) && Possible(schema, s, e)
    requires Mirrors(r, s.cache) && forall o :: o in e.report.upserts ==> NoNulls(o)
    ensures Mirrors(ReceiveAll(schema, UpsertsFirst, r, Step(schema, s, e).messages), Step(schema, s, e).state.cache)
            <==> !exists k :: Revives(schema, s, e, k)
  {
    var (g, ds) := Digest(schema, s, e.report);
    ReportMirrors(schema, s, e, r);
    hide Mirrors;
    hide Possible;
    CacheAfter(schema, s, e);
    KeysAfterRetry(schema, s, e);
    DiscardRemoves(schema, Ingest(schema, Flow(s.cache, [], s.parked), e.report.upserts).cache, e.report.deletes);
    assert KeysOf(schema, ds) !! g.cache.Keys;
    hide Cached;
    hide Step;
    hide Absorb;
    hide Digest;
    forall k
      ensures Revives(schema, s, e, k) <==> k in KeysOf(schema, ds) && k in Step(schema, s, e).state.cache.Keys
    {
    }
  }

  /** With one parked object per key, that is: the parked object of the key has no path of targets
      that needs more passes than there are parked types or leads to a reference to nothing. */
  lemma PutsBackIff(schema: Schema, g: Flow, k: string)
    requires UniqueKeys(schema, g.parked) && k !in g.cache
    ensures PutsBack(schema, g, k)
            <==> exists i: nat :: i < |g.parked| && KeyOf(schema, g.parked[i]) == Some(k)
                                  && Bounded(schema, g.cache.Keys, g.parked, |TypesOf(g.parked)|, i)
  {
    CachedIffBounded(schema, g.cache.Keys, g.parked, |TypesOf(g.parked)|, k);
  }

  // -------------------------------------------- each object after its target

  lemma {:induction false} IngestTracks(schema: Schema, base: set<string>, f: Flow, os: seq<Mo>)
    requires Tracks(schema, base, f)
    ensures Tracks(schema, base, Ingest(schema, f, os))
  {
    if os != [] {
      var n := |os| - 1;
      IngestTracks(schema, base, f, os[..n]);
      IngestOneTracks(schema, base, Ingest(schema, f, os[..n]), os[n]);
    }
  }

  lemma IngestOneTracks(schema: Schema, base: set<string>, f: Flow, o: Mo)
    requires Tracks(schema, base, f)
    ensures Tracks(schema, base, IngestOne(schema, f, o))
  {
    if KeyOf(schema, o).Some? && Resolvable(f.cache.Keys, o) {
      var k := KeyOf(schema, o).value;
      var have := base + KeysOf(schema, f.out);
      ResolvableMonotone(f.cache.Keys, have, o);
      if k !in f.cache {
        GroundedAppend(schema, base, f.out, o);
        KeysOfAppend(schema, f.out, o);
      } else if Diff(schema, o, f.cache[k]).Some? {
        var d := Diff(schema, o, f.cache[k]).value;
        DiffKeepsKey(schema, o, f.cache[k]);
        assert Resolvable(have, d) by {
          assert forall p :: p in d ==> ValueResolves(have, o[p]) && d[p] == o[p];
        }
        GroundedAppend(schema, base, f.out, d);
        KeysOfAppend(schema, f.out, d);
      }
    }
  }

  lemma DigestTracks(schema: Schema, s: State, rep: Report)
    ensures Tracks(schema, s.cache.Keys, Digest(schema, s, rep).0)
  {
    var f0 := Flow(s.cache, [], s.parked);
    IngestTracks(schema, s.cache.Keys, f0, rep.upserts);
    DiscardRemoves(schema, Ingest(schema, f0, rep.upserts).cache, rep.deletes);
  }

  /** With at most one relationship per object, every object in the output of a report comes
      after the targets of its relationships: they were cached before the report or are produced
      earlier in it. */
  lemma TargetsComeFirst(schema: Schema, s: State, e: Event)
    requires Sound(schema, s) && Single(s.parked) && AtMostOne(e.report.upserts) && Possible(schema, s, e)
    ensures Grounded(schema, s.cache.Keys, Step(schema, s, e).upserts)
  {
    var g := Digest(schema, s, e.report).0;
    DigestTracks(schema, s, e.report);
    if Retries(e.report.kind) {
      IngestParks(schema, Flow(s.cache, [], s.parked), e.report.upserts);
      ReprocessIsRetry(schema, g, e.passes);
      RetryRoundsGrounded(schema, s.cache.Keys, |TypesOf(g.parked)|, g);
    }
  }

  // ------------------------------------------------------------- batching

  function UpsertsOf(ms: seq<Message>): seq<Mo>
  {
    if ms == [] then [] else ms[0].upserts + UpsertsOf(ms[1..])
  }

  lemma UpsertsOfCons(m: Message, ms: seq<Message>)
    ensures UpsertsOf([m] + ms) == m.upserts + UpsertsOf(ms)
  {
    assert ([m] + ms)[1..] == ms;
  }

  lemma BatchesCut(kind: ReportType, full: bool, ups: seq<Mo>, dels: seq<Mo>)
    ensures Batches(kind, full, ups, dels) ==
            if |ups| > BATCH
            then [Message(if full then FullSegment else Incremental, ups[..BATCH], dels)]
                 + Batches(kind, full, ups[BATCH..], dels)
            else [Message(if full then kind else Incremental, ups, dels)] + []
  {
  }

  lemma {:induction false} BatchesConcatenate(kind: ReportType, full: bool, ups: seq<Mo>, dels: seq<Mo>)
    ensures Batches(kind, full, ups, dels) != [] && UpsertsOf(Batches(kind, full, ups, dels)) == ups
    decreases |ups|
  {
    BatchesCut(kind, full, ups, dels);
    if |ups| > BATCH {
      BatchesConcatenate(kind, full, ups[BATCH..], dels);
      UpsertsOfCons(Message(if full then FullSegment else Incremental, ups[..BATCH], dels),
                    Batches(kind, full, ups[BATCH..], dels));
      assert ups[..BATCH] + ups[BATCH..] == ups;
    } else {
      UpsertsOfCons(Message(if full then kind else Incremental, ups, dels), []);
    }
  }

  /** Batches are non-empty, hold at most 100 upserts each and their concatenation is the
      report's upserts; the deletes ride in every one; the last carries the report's type
      while the full sync lasts, the others are full segments, and afterwards all are incremental. */
  lemma {:induction false} BatchesWellCut(kind: ReportType, full: bool, ups: seq<Mo>, dels: seq<Mo>)
    ensures var ms := Batches(kind, full, ups, dels);
            && ms != [] && UpsertsOf(ms) == ups
            && (forall i :: 0 <= i < |ms| ==> |ms[i].upserts| <= 100 && ms[i].deletes == dels)
            && (forall i :: 0 <= i < |ms| - 1 ==> ms[i].kind == (if full then FullSegment else Incremental))
            && ms[|ms| - 1].kind == (if full then kind else Incremental)
            && (|ups| > 0 ==> forall i :: 0 <= i < |ms| ==> ms[i].upserts != [])
    decreases |ups|
  {
    BatchesConcatenate(kind, full, ups, dels);
    hide UpsertsOf;
    BatchesCut(kind, full, ups, dels);
    if |ups| > BATCH {
      BatchesWellCut(kind, full, ups[BATCH..], dels);
    }
    hide Batches;
  }

  // -------------------------------------------------------------- grammar

  /** Position in fullStart fullSegment* fullEnd incremental*. */
  datatype Phase = Before | Filling | Done | Broken

  function Advance(ph: Phase, t: ReportType): Phase
  {
    match (ph, t)
    case (Before, FullStart) => Filling
    case (Filling, FullSegment) => Filling
    case (Filling, FullEnd) => Done
    case (Done, Incremental) => Done
    case _ => Broken
  }

  function Reads(ph: Phase, ms: seq<Message>): Phase
  {
    if ms == [] then ph else Advance(Reads(ph, ms[..|ms| - 1]), ms[|ms| - 1].kind)
  }

  lemma {:induction false} ReadsConcat(ph: Phase, xs: seq<Message>, ys: seq<Message>)
    ensures Reads(ph, xs + ys) == Reads(Reads(ph, xs), ys)
  {
    if ys == [] {
      assert xs + ys == xs;
    } else {
      var n := |ys| - 1;
      assert (xs + ys)[..|xs| + n] == xs + ys[..n];
      ReadsConcat(ph, xs, ys[..n]);
    }
  }

  /** ms[end] is the full end, or end is the length and it is still to come. */
  ghost predicate EndsAt(ms: seq<Message>, end: int)
  {
    && 1 <= end <= |ms|
    && (forall i :: 1 <= i < end ==> ms[i].kind == FullSegment)
    && (end < |ms| ==> ms[end].kind == FullEnd)
    && (forall i :: end < i < |ms| ==> ms[i].kind == Incremental)
  }

  /** The message types form a prefix of fullStart fullSegment* fullEnd incremental*. */
  ghost predicate StreamPrefix(ms: seq<Message>)
  {
    ms == [] || (ms[0].kind == FullStart && exists end :: EndsAt(ms, end))
  }

  /** A phase other than Before or Broken pins down the shape of what was read. */
  lemma {:induction false} PhaseShape(ms: seq<Message>) returns (end: int)
    requires Reads(Before, ms) == Filling || Reads(Before, ms) == Done
    ensures ms[0].kind == FullStart && EndsAt(ms, end)
    ensures Reads(Before, ms) == Filling <==> end == |ms|
  {
    var n := |ms| - 1;
    if Reads(Before, ms[..n]) == Before {
      assert n == 0 by { NeverBackToBefore(ms[..n]); }
      end := 1;
    } else {
      end := PhaseShape(ms[..n]);
      if Reads(Before, ms) == Filling {
        end := |ms|;
      }
    }
  }

  lemma {:induction false} NeverBackToBefore(ms: seq<Message>)
    requires Reads(Before, ms) == Before
    ensures ms == []
  {
  }

  // ------------------------------------------------- grammar of the whole

  /** The collector's position in its cycles fullStart fullSegment* fullEnd. */
  datatype Collector = Idle | Collecting | Astray

  function Collects(c: Collector, rep: Report): Collector
  {
    match (c, rep.kind)
    case (Idle, FullStart) => if rep.upserts == [] && rep.deletes == [] then Collecting else Astray
    case (Collecting, FullSegment) => Collecting
    case (Collecting, FullEnd) => Idle
    case _ => Astray
  }

  function CollectsAll(c: Collector, reps: seq<Report>): Collector
  {
    if reps == [] then c else Collects(CollectsAll(c, reps[..|reps| - 1]), reps[|reps| - 1])
  }

  lemma BatchesRead(ph: Phase, kind: ReportType, full: bool, ups: seq<Mo>, dels: seq<Mo>)
    requires if full then ph == Filling else ph == Done
    ensures Reads(ph, Batches(kind, full, ups, dels)) == if full then Advance(Filling, kind) else Done
    decreases |ups|
  {
    if |ups| > BATCH {
      var first := Message(if full then FullSegment else Incremental, ups[..BATCH], dels);
      assert [first][..0] == [];
      assert Reads(ph, [first]) == Advance(Reads(ph, []), first.kind) == ph;
      ReadsConcat(ph, [first], Batches(kind, full, ups[BATCH..], dels));
      BatchesRead(ph, kind, full, ups[BATCH..], dels);
    } else {
      var only := Message(if full then kind else Incremental, ups, dels);
      assert [only][..0] == [];
      assert Reads(ph, [only]) == Advance(Reads(ph, []), only.kind);
    }
  }

  /** How the collector's position, sendFull and the stream's phase go together. */
  predicate InStep(c: Collector, sendFull: bool, ph: Phase)
  {
    if !sendFull then ph == Done
    else match c case Idle => ph == Before case Collecting => ph == Filling case Astray => false
  }

  lemma StepInStep(schema: Schema, s: State, e: Event, c: Collector, ph: Phase)
    requires InStep(c, s.sendFull, ph) && Collects(c, e.report) != Astray
    ensures var out := Step(schema, s, e);
            InStep(Collects(c, e.report), out.state.sendFull, Reads(ph, out.messages))
  {
    var rep := e.report;
    var out := Step(schema, s, e);
    if Sends(s, rep.kind, out.upserts, out.deletes) {
      if s.sendFull && rep.kind == FullStart {
        assert out.upserts == [] && out.deletes == [];
        var only := Message(FullStart, [], []);
        assert out.messages == [only] && [only][..0] == [];
        assert Reads(ph, [only]) == Advance(Reads(ph, []), FullStart);
      } else {
        BatchesRead(ph, rep.kind, s.sendFull, out.upserts, out.deletes);
      }
    }
  }

  /** Stream grammar, with the collector composed: over any run fed by a collector that
      cycles through fullStart fullSegment* fullEnd, the types of all messages sent form a
      prefix of fullStart fullSegment* fullEnd incremental*. */
  lemma StreamGrammar(schema: Schema, es: seq<Event>)
    requires CollectsAll(Idle, ReportsOf(es)) != Astray
    ensures StreamPrefix(Sent(schema, FRESH, es))
  {
    RunInStep(schema, es);
    var sent := Sent(schema, FRESH, es);
    if Reads(Before, sent) == Before {
      NeverBackToBefore(sent);
    } else {
      var end := PhaseShape(sent);
    }
  }

  lemma {:induction false} RunInStep(schema: Schema, es: seq<Event>)
    requires CollectsAll(Idle, ReportsOf(es)) != Astray
    ensures InStep(CollectsAll(Idle, ReportsOf(es)), After(schema, FRESH, es).sendFull,
            Reads(Before, Sent(schema, FRESH, es)))
  {
    if es != [] {
      var n := |es| - 1;
      assert ReportsOf(es)[..n] == ReportsOf(es[..n]) && ReportsOf(es)[n] == es[n].report;
      RunInStep(schema, es[..n]);
      var s := After(schema, FRESH, es[..n]);
      var sent := Sent(schema, FRESH, es[..n]);
      StepInStep(schema, s, es[n], CollectsAll(Idle, ReportsOf(es[..n])), Reads(Before, sent));
      ReadsConcat(Before, sent, Step(schema, s, es[n]).messages);
    }
  }
}
