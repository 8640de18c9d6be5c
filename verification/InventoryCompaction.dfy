/** The retry pass as the code performs it: the list of parked objects is compacted in place
    while it is being read, one write per unresolved relationship. */
module InventoryCompaction {
  import opened Basics
  import opened InventoryModel
  import opened InventoryRetry

  lemma FillMore(m: seq<Mo>, still: nat, k: nat, o: Mo)
    requires still + k < |m|
    ensures Fill(m, still, k + 1, o) == Fill(m, still, k, o)[still + k := o]
  {
  }

  lemma {:induction false} FillAt(m: seq<Mo>, still: nat, k: nat, o: Mo)
    requires still + k <= |m|
    ensures forall j :: 0 <= j < |m| ==> Fill(m, still, k, o)[j] == if still <= j < still + k then o else m[j]
  {
    if k != 0 {
      FillAt(m, still, k - 1, o);
    }
  }

  lemma VisitPrefix(keys: set<string>, o: Mo, order: seq<string>, i: nat)
    requires i < |order|
    ensures Visit(keys, o, order[..i + 1]) ==
            (var p := order[i];
             var (c, hit) := Visit(keys, o, order[..i]);
             if hit || p !in o || !IsRelation(o[p]) then (c, hit)
             else if ValueResolves(keys, o[p]) then (c, true)
             else (c + 1, false))
  {
    assert order[..i + 1][..i] == order[..i];
  }

  lemma VisitNext(schema: Schema, q: Compaction, orders: seq<seq<string>>, order: seq<string>)
    requires |orders| < |q.buf| && q.still <= |q.buf| && Fit(schema, q, orders)
    requires !VisitAll(schema, q, orders).overrun && Lists(order, VisitAll(schema, q, orders).buf[|orders|].Keys)
    ensures Fit(schema, q, orders + [order])
    ensures VisitAll(schema, q, orders + [order]) == VisitOne(schema, VisitAll(schema, q, orders), |orders|, order)
  {
  }

  // ------------------------------------------------------------- one visit

  /** Going on never takes a write back, and a hit is final. */
  lemma {:induction false} VisitGrows(keys: set<string>, o: Mo, order: seq<string>, i: nat)
    requires i <= |order|
    ensures Visit(keys, o, order[..i]).0 <= Visit(keys, o, order).0
    ensures Visit(keys, o, order[..i]).1 ==> Visit(keys, o, order) == Visit(keys, o, order[..i])
  {
    if i < |order| {
      assert order[..|order| - 1][..i] == order[..i];
      VisitGrows(keys, o, order[..|order| - 1], i);
    } else {
      assert order[..i] == order;
    }
  }

  /** Relationships among the properties listed so far. */
  ghost function Met(o: Mo, order: seq<string>): set<string>
  {
    set p | p in order && p in Relations(o)
  }

  lemma MetNext(o: Mo, order: seq<string>)
    requires order != [] && forall i, j :: 0 <= i < j < |order| ==> order[i] != order[j]
    ensures var n := |order| - 1;
            && order[n] !in Met(o, order[..n])
            && Met(o, order) == Met(o, order[..n]) + (if order[n] in Relations(o) then {order[n]} else {})
  {
  }

  lemma {:induction false} VisitCounts(keys: set<string>, o: Mo, order: seq<string>)
    requires forall i, j :: 0 <= i < j < |order| ==> order[i] != order[j]
    ensures var (c, hit) := Visit(keys, o, order);
            && (hit ==> c < |Met(o, order)|)
            && (!hit ==> c == |Met(o, order)|)
            && (hit <==> exists p :: p in Met(o, order) && ValueResolves(keys, o[p]))
  {
    if order == [] {
      assert Met(o, order) == {};
    } else {
      var n := |order| - 1;
      VisitCounts(keys, o, order[..n]);
      MetNext(o, order);
    }
  }

  /** With one relationship a visit either finds it resolved or writes once; when nothing
      resolves it writes once per relationship. */
  lemma VisitOutcome(keys: set<string>, o: Mo, order: seq<string>)
    requires Lists(order, o.Keys)
    ensures |Relations(o)| == 1 ==> Visit(keys, o, order) == (if Resolvable(keys, o) then (0, true) else (1, false))
    ensures Stuck(keys, o) ==> Visit(keys, o, order) == (|Relations(o)|, false)
  {
    VisitCounts(keys, o, order);
    assert Met(o, order) == Relations(o);
    if |Relations(o)| == 1 {
      var p :| p in Relations(o);
      OneRelation(keys, o, p);
    }
  }

  /** No relationship of o resolves. */
  ghost predicate Stuck(keys: set<string>, o: Mo)
  {
    forall p :: p in Relations(o) ==> !ValueResolves(keys, o[p])
  }

  lemma OneRelation(keys: set<string>, o: Mo, p: string)
    requires |Relations(o)| == 1 && p in Relations(o)
    ensures Relations(o) == {p}
    ensures Resolvable(keys, o) <==> ValueResolves(keys, o[p])
  {
    SoleMember(Relations(o), p);
    assert forall q :: q in o && q != p ==> q !in Relations(o) && RefsIn(o[q]) == [];
  }

  // --------------------------------------------- one relationship per object

  /** Objects with a single relationship: what the retry is written for. */
  ghost predicate Single(os: seq<Mo>)
  {
    forall o :: o in os ==> |Relations(o)| == 1
  }

  lemma FillOnce(m: seq<Mo>, i: nat, still: nat, k: nat)
    requires still <= i < |m| && k <= 1
    ensures var r := Fill(m, still, k, m[i]);
            r[i + 1..] == m[i + 1..] && r[..still + k] == m[..still] + (if k == 0 then [] else [m[i]])
  {
  }

  lemma SingleStep(schema: Schema, h: Compaction, n: nat, order: seq<string>)
    requires h.still <= n < |h.buf| && !h.overrun
    requires |Relations(h.buf[n])| == 1 && KeyOf(schema, h.buf[n]).Some? && Lists(order, h.buf[n].Keys)
    ensures var r := VisitOne(schema, h, n, order);
            && !r.overrun && r.still <= n + 1 && r.buf[n + 1..] == h.buf[n + 1..]
            && Flow(r.cache, r.out, r.buf[..r.still])
                == RetryOne(schema, Flow(h.cache, h.out, h.buf[..h.still]), h.buf[n])
  {
    VisitOutcome(h.cache.Keys, h.buf[n], order);
    FillOnce(h.buf, n, h.still, 0);
    FillOnce(h.buf, n, h.still, 1);
  }

  /** Overwriting the list while reading it is harmless when every object has one
      relationship: the compacted part is what a pass over the original list keeps. */
  lemma {:induction false} SinglePass(schema: Schema, q: Compaction, orders: seq<seq<string>>)
    requires Single(q.buf) && Keyed(schema, q.buf) && q.still == 0 && !q.overrun
    requires |orders| <= |q.buf| && Fit(schema, q, orders)
    ensures var r := VisitAll(schema, q, orders);
            && !r.overrun && r.still <= |orders|
            && r.buf[|orders|..] == q.buf[|orders|..]
            && Flow(r.cache, r.out, r.buf[..r.still]) == RetryAll(schema, Flow(q.cache, q.out, []), q.buf[..|orders|])
  {
    if orders == [] {
      assert q.buf[..0] == [];
    } else {
      var n := |orders| - 1;
      SinglePass(schema, q, orders[..n]);
      var h := VisitAll(schema, q, orders[..n]);
      DropHead(h.buf, q.buf, n);
      assert q.buf[n] in q.buf;
      SingleStep(schema, h, n, orders[n]);
      assert q.buf[..n + 1][..n] == q.buf[..n];
    }
  }

  /** A completed pass therefore is a pass of the ideal retry. */
  lemma SinglePassIsRetryPass(schema: Schema, cache: Cache, out: seq<Mo>, buf: seq<Mo>, orders: seq<seq<string>>)
    requires Single(buf) && Keyed(schema, buf) && |orders| == |buf|
    requires Fit(schema, Compaction(cache, out, buf, 0, false), orders)
    ensures var r := VisitAll(schema, Compaction(cache, out, buf, 0, false), orders);
            && !r.overrun && r.still <= |buf|
            && Flow(r.cache, r.out, r.buf[..r.still]) == RetryPass(schema, Flow(cache, out, buf))
  {
    SinglePass(schema, Compaction(cache, out, buf, 0, false), orders);
    assert buf[..|buf|] == buf;
  }

  lemma PassIsRetryPass(schema: Schema, f: Flow, orders: seq<seq<string>>)
    requires Single(f.parked) && Keyed(schema, f.parked) && |orders| == |f.parked|
    requires Fit(schema, Compaction(f.cache, f.out, f.parked, 0, false), orders)
    ensures Pass(schema, f, orders) == Some(RetryPass(schema, f))
    ensures Single(RetryPass(schema, f).parked) && Keyed(schema, RetryPass(schema, f).parked)
  {
    SinglePassIsRetryPass(schema, f.cache, f.out, f.parked, orders);
    PassKeeps(schema, f);
  }

  /** For objects with one relationship the in-place passes are those of the ideal retry. */
  lemma {:induction false} PassesAreRounds(schema: Schema, left: nat, f: Flow, passes: seq<seq<seq<string>>>)
    requires Single(f.parked) && Keyed(schema, f.parked) && Ranged(schema, left, f, passes)
    ensures Passes(schema, left, f, passes).Some?
            ==> Passes(schema, left, f, passes).value == RetryRounds(schema, left, f)
    ensures Passes(schema, left, f, passes).None? ==> |passes| < left
    decreases left
  {
    hide VisitAll;
    hide Fit;
    hide Pass;
    hide RetryPass;
    hide Single;
    hide Keyed;
    if left > 0 && f.parked != [] && passes != [] {
      PassIsRetryPass(schema, f, passes[0]);
      PassesAreRounds(schema, left - 1, Pass(schema, f, passes[0]).value, passes[1..]);
    }
  }

  lemma ReprocessIsRetry(schema: Schema, f: Flow, passes: seq<seq<seq<string>>>)
    requires Single(f.parked) && Keyed(schema, f.parked) && Ranged(schema, |TypesOf(f.parked)|, f, passes)
    requires Reprocess(schema, f, passes).Some?
    ensures Reprocess(schema, f, passes).value == Retry(schema, f)
  {
    PassesAreRounds(schema, |TypesOf(f.parked)|, f, passes);
  }

  // ------------------------------------------------ what any passes can do

  /** Whatever is parked was parked before or comes from the report, has a key, and did not
      resolve, so it has a relationship. */
  lemma {:induction false} IngestParks(schema: Schema, f: Flow, os: seq<Mo>)
    requires Keyed(schema, f.parked)
    ensures var g := Ingest(schema, f, os);
            && Keyed(schema, g.parked)
            && forall o :: o in g.parked ==> o in f.parked || (o in os && |Relations(o)| >= 1)
  {
    if os != [] {
      var n := |os| - 1;
      IngestParks(schema, f, os[..n]);
      var h := Ingest(schema, f, os[..n]);
      if KeyOf(schema, os[n]).Some? && !Resolvable(h.cache.Keys, os[n]) {
        var p :| p in os[n] && !ValueResolves(h.cache.Keys, os[n][p]);
        assert p in Relations(os[n]);
      }
    }
  }

  /** An object put in the cache under its key and produced. */
  function Put(schema: Schema, f: Flow, o: Mo): Flow
  {
    match KeyOf(schema, o)
    case None => f
    case Some(k) => f.(cache := f.cache[k := o], out := f.out + [o])
  }

  function PutAll(schema: Schema, f: Flow, ps: seq<Mo>): Flow
  {
    if ps == [] then f else Put(schema, PutAll(schema, f, ps[..|ps| - 1]), ps[|ps| - 1])
  }

  lemma {:induction false} PutAllConcat(schema: Schema, f: Flow, ps: seq<Mo>, qs: seq<Mo>)
    ensures PutAll(schema, f, ps + qs) == PutAll(schema, PutAll(schema, f, ps), qs)
  {
    if qs == [] {
      assert ps + qs == ps;
    } else {
      var n := |qs| - 1;
      assert (ps + qs)[..|ps| + n] == ps + qs[..n];
      PutAllConcat(schema, f, ps, qs[..n]);
    }
  }

  /** Whatever the relationships and their orders, a pass only puts objects of its list, in full,
      and only keeps objects of its list. */
  lemma {:induction false} VisitPuts(schema: Schema, q: Compaction, orders: seq<seq<string>>) returns (ps: seq<Mo>)
    requires |orders| <= |q.buf| && q.still <= |q.buf|
    ensures var r := VisitAll(schema, q, orders);
            && Flow(r.cache, r.out, []) == PutAll(schema, Flow(q.cache, q.out, []), ps)
            && (forall o :: o in ps ==> o in q.buf)
            && (forall o :: o in r.buf ==> o in q.buf)
  {
    ps := [];
    if orders != [] {
      var n := |orders| - 1;
      ps := VisitPuts(schema, q, orders[..n]);
      var h := VisitAll(schema, q, orders[..n]);
      var o := h.buf[n];
      assert o in h.buf;
      if !h.overrun && KeyOf(schema, o).Some? {
        var (c, hit) := Visit(h.cache.Keys, o, orders[n]);
        if h.still + c <= |h.buf| {
          FillAt(h.buf, h.still, c, o);
          if hit {
            assert (ps + [o])[..|ps|] == ps;
            ps := ps + [o];
          }
        }
      }
    }
  }

  lemma {:induction false} PassesPut(schema: Schema, left: nat, f: Flow, passes: seq<seq<seq<string>>>)
      returns (ps: seq<Mo>)
    requires Passes(schema, left, f, passes).Some?
    ensures var g := Passes(schema, left, f, passes).value;
            && Flow(g.cache, g.out, []) == PutAll(schema, Flow(f.cache, f.out, []), ps)
            && (forall o :: o in ps ==> o in f.parked)
            && (forall o :: o in g.parked ==> o in f.parked)
    decreases left
  {
    ps := [];
    if left > 0 && f.parked != [] {
      var q := Compaction(f.cache, f.out, f.parked, 0, false);
      ps := VisitPuts(schema, q, passes[0]);
      var h := Pass(schema, f, passes[0]).value;
      hide VisitAll;
      var qs := PassesPut(schema, left - 1, h, passes[1..]);
      PutAllConcat(schema, Flow(f.cache, f.out, []), ps, qs);
      hide PutAll;
      ps := ps + qs;
    }
  }

  /** What a report does after its upserts and deletes are processed: some parked objects are put. */
  lemma AbsorbPuts(schema: Schema, s: State, e: Event) returns (ps: seq<Mo>)
    ensures var (g, ds) := Digest(schema, s, e.report);
            var (h, ds') := Absorb(schema, s, e);
            && ds' == ds
            && Flow(h.cache, h.out, []) == PutAll(schema, Flow(g.cache, g.out, []), ps)
            && (forall o :: o in ps ==> o in g.parked)
            && h.parked == (if Retries(e.report.kind) then [] else g.parked)
  {
    var g := Digest(schema, s, e.report).0;
    ps := [];
    if Retries(e.report.kind) && Reprocess(schema, g, e.passes).Some? {
      ps := PassesPut(schema, |TypesOf(g.parked)|, g, e.passes);
    }
  }

  /** A visit produces an object with an unresolved target exactly when some relationship
      resolves and some does not. */
  lemma ProducedEarlyIff(keys: set<string>, o: Mo, order: seq<string>)
    requires Lists(order, o.Keys)
    ensures Visit(keys, o, order).1 && !Resolvable(keys, o)
            <==> (exists p :: p in Relations(o) && ValueResolves(keys, o[p]))
                 && (exists p :: p in Relations(o) && !ValueResolves(keys, o[p]))
  {
    VisitCounts(keys, o, order);
    assert Met(o, order) == Relations(o);
    if !Resolvable(keys, o) {
      var p :| p in o && !ValueResolves(keys, o[p]);
      assert p in Relations(o);
    } else {
      assert forall p :: p in Relations(o) ==> ValueResolves(keys, o[p]);
    }
  }

  /** When all relationships resolve, the first one met ends the visit. */
  lemma {:induction false} ResolvableVisit(keys: set<string>, o: Mo, order: seq<string>)
    requires Resolvable(keys, o)
    ensures Visit(keys, o, order) == (0, Met(o, order) != {})
  {
    if order != [] {
      var n := |order| - 1;
      ResolvableVisit(keys, o, order[..n]);
      assert order == order[..n] + [order[n]];
      assert Met(o, order) == Met(o, order[..n]) + (if order[n] in Relations(o) then {order[n]} else {});
      if order[n] in o { assert ValueResolves(keys, o[order[n]]); }
    }
  }

  // ------------------------------------------- several relationships: overrun

  /** Nothing resolves, and some object has more than one relationship. */
  ghost predicate Jammed(schema: Schema, keys: set<string>, os: seq<Mo>)
  {
    && (forall o :: o in os ==> KeyOf(schema, o).Some? && Stuck(keys, o) && |Relations(o)| >= 1)
    && (exists o :: o in os && |Relations(o)| >= 2)
  }

  /** Position i of a pass in which nothing resolves: as long as only objects with one
      relationship were met the list is as it was; after that the writes are ahead of the
      reads and everything between them has several. */
  ghost predicate Jamming(was: seq<Mo>, i: nat, m: seq<Mo>, still: nat)
  {
    && i <= |was| == |m| && still <= |m| && (forall o :: o in m ==> o in was)
    && if Single(was[..i]) then still == i && m == was
       else i < still && forall j :: i <= j < still ==> |Relations(m[j])| >= 2
  }

  lemma JammingStep(was: seq<Mo>, i: nat, m: seq<Mo>, still: nat, k: nat)
    requires Jamming(was, i, m, still) && i < |m|
    requires k == |Relations(m[i])| >= 1 && still + k <= |m|
    ensures Jamming(was, i + 1, Fill(m, still, k, m[i]), still + k)
  {
    var o := m[i];
    var r := Fill(m, still, k, o);
    FillAt(m, still, k, o);
    assert o in m;
    assert was[..i + 1] == was[..i] + [was[i]];
    if Single(was[..i]) && k == 1 {
      assert r == m;
    } else if Single(was[..i]) {
      assert o in was[..i + 1];
    }
  }

  lemma VisitStuck(schema: Schema, h: Compaction, n: nat, order: seq<string>)
    requires n < |h.buf| && h.still <= |h.buf|
    requires KeyOf(schema, h.buf[n]).Some? && Stuck(h.cache.Keys, h.buf[n]) && Lists(order, h.buf[n].Keys)
    ensures var k := |Relations(h.buf[n])|;
            VisitOne(schema, h, n, order) ==
              if h.still + k > |h.buf| then h.(overrun := true)
              else h.(buf := Fill(h.buf, h.still, k, h.buf[n]), still := h.still + k)
  {
    VisitOutcome(h.cache.Keys, h.buf[n], order);
  }

  lemma {:induction false} JammedProgress(schema: Schema, q: Compaction, orders: seq<seq<string>>)
    requires Jammed(schema, q.cache.Keys, q.buf) && q.still == 0 && !q.overrun
    requires |orders| <= |q.buf| && Fit(schema, q, orders)
    ensures var r := VisitAll(schema, q, orders);
            r.overrun || (r.cache == q.cache && Jamming(q.buf, |orders|, r.buf, r.still))
  {
    if orders != [] {
      var n := |orders| - 1;
      JammedProgress(schema, q, orders[..n]);
      var h := VisitAll(schema, q, orders[..n]);
      if !h.overrun {
        var o := h.buf[n];
        assert o in h.buf && o in q.buf;
        VisitStuck(schema, h, n, orders[n]);
        if h.still + |Relations(o)| <= |h.buf| {
          JammingStep(q.buf, n, h.buf, h.still, |Relations(o)|);
        }
      }
    }
  }

  /** When nothing resolves, a pass writes outside its list exactly when some object has more
      than one relationship. */
  lemma PassOverruns(schema: Schema, cache: Cache, out: seq<Mo>, buf: seq<Mo>, orders: seq<seq<string>>)
    requires |orders| == |buf| && Fit(schema, Compaction(cache, out, buf, 0, false), orders)
    requires forall o :: o in buf ==> KeyOf(schema, o).Some? && Stuck(cache.Keys, o) && |Relations(o)| >= 1
    ensures VisitAll(schema, Compaction(cache, out, buf, 0, false), orders).overrun
            <==> exists o :: o in buf && |Relations(o)| >= 2
  {
    if exists o :: o in buf && |Relations(o)| >= 2 {
      JammedProgress(schema, Compaction(cache, out, buf, 0, false), orders);
      assert !Single(buf[..|buf|]) by { assert buf[..|buf|] == buf; }
    } else {
      SinglePassIsRetryPass(schema, cache, out, buf, orders);
    }
  }

  /** The writes are ahead of position i, and everything between has several relationships none
      of which resolves. */
  ghost predicate Ahead(schema: Schema, r: Compaction, i: nat)
  {
    && i < r.still <= |r.buf|
    && forall j :: i <= j < r.still ==>
         KeyOf(schema, r.buf[j]).Some? && Stuck(r.cache.Keys, r.buf[j]) && |Relations(r.buf[j])| >= 2
  }

  /** The visit of position i takes the writes from behind it to past the next position, and the
      object visited has no relationship that resolves. */
  ghost predicate Leaps(schema: Schema, r: Compaction, i: nat)
    requires i < |r.buf|
  {
    && r.still <= i && KeyOf(schema, r.buf[i]).Some? && Stuck(r.cache.Keys, r.buf[i])
    && r.still + |Relations(r.buf[i])| > i + 1
  }

  lemma StuckMovesAhead(schema: Schema, r: Compaction, i: nat, order: seq<string>)
    requires i < |r.buf| && Lists(order, r.buf[i].Keys)
    requires Leaps(schema, r, i) || Ahead(schema, r, i)
    ensures VisitOne(schema, r, i, order).overrun || Ahead(schema, VisitOne(schema, r, i, order), i + 1)
  {
    var k := |Relations(r.buf[i])|;
    VisitStuck(schema, r, i, order);
    if r.still + k <= |r.buf| {
      FillAt(r.buf, r.still, k, r.buf[i]);
    }
  }

  lemma {:induction false} AheadStays(schema: Schema, q: Compaction, orders: seq<seq<string>>, i: nat)
    requires i <= |orders| <= |q.buf| && q.still <= |q.buf| && Fit(schema, q, orders)
    requires var r := VisitAll(schema, q, orders[..i]); r.overrun || Ahead(schema, r, i)
    ensures var r := VisitAll(schema, q, orders); r.overrun || Ahead(schema, r, |orders|)
  {
    if i == |orders| {
      assert orders[..i] == orders;
    } else {
      var n := |orders| - 1;
      assert orders[..n][..i] == orders[..i];
      AheadStays(schema, q, orders[..n], i);
      var r := VisitAll(schema, q, orders[..n]);
      if !r.overrun { StuckMovesAhead(schema, r, n, orders[n]); }
    }
  }

  /** Whatever else is in the list: once such a visit is made the pass overruns. */
  lemma StuckOverruns(schema: Schema, q: Compaction, orders: seq<seq<string>>, i: nat)
    requires i < |orders| == |q.buf| && q.still <= |q.buf| && Fit(schema, q, orders)
    requires var r := VisitAll(schema, q, orders[..i]); !r.overrun && Leaps(schema, r, i)
    ensures VisitAll(schema, q, orders).overrun
  {
    FitPrefix(schema, q, orders, i + 1);
    assert orders[..i + 1][..i] == orders[..i];
    StuckMovesAhead(schema, VisitAll(schema, q, orders[..i]), i, orders[i]);
    AheadStays(schema, q, orders, i + 1);
  }

  /** And a pass only overruns after a visit that takes the writes that far: one of an object
      with several relationships that do not resolve. */
  lemma {:induction false} OverrunStarts(schema: Schema, q: Compaction, orders: seq<seq<string>>) returns (i: nat)
    requires |orders| <= |q.buf| && q.still == 0 && !q.overrun && Fit(schema, q, orders)
    requires VisitAll(schema, q, orders).overrun || VisitAll(schema, q, orders).still > |orders|
    ensures i < |orders|
    ensures var r := VisitAll(schema, q, orders[..i]);
            && !r.overrun && r.still <= i && KeyOf(schema, r.buf[i]).Some?
            && r.still + Visit(r.cache.Keys, r.buf[i], orders[i]).0 > i + 1
    ensures var r := VisitAll(schema, q, orders[..i]);
            exists p, p' :: p in Relations(r.buf[i]) && p' in Relations(r.buf[i]) && p != p'
                            && !ValueResolves(r.cache.Keys, r.buf[i][p]) && !ValueResolves(r.cache.Keys, r.buf[i][p'])
  {
    var n := |orders| - 1;
    var h := VisitAll(schema, q, orders[..n]);
    if h.overrun || h.still > n {
      i := OverrunStarts(schema, q, orders[..n]);
      assert orders[..n][..i] == orders[..i];
    } else {
      i := n;
      var p, p' := TwoUnresolved(h.cache.Keys, h.buf[n], orders[n]);
    }
  }

  /** The pass planned on the list as it is, without overwriting it: cached keys and number of
      writes after the first |orders| positions. */
  ghost function Plan(schema: Schema, keys: set<string>, os: seq<Mo>, orders: seq<seq<string>>): (set<string>, nat)
    requires |orders| <= |os|
  {
    if orders == [] then (keys, 0)
    else
      var n := |orders| - 1;
      var (ks, writes) := Plan(schema, keys, os, orders[..n]);
      match KeyOf(schema, os[n])
      case None => (ks, writes)
      case Some(k) =>
        var (c, hit) := Visit(ks, os[n], orders[n]);
        (if hit then ks + {k} else ks, writes + c)
  }

  /** The plan has made more writes than reads once position i is visited. */
  ghost predicate Leads(schema: Schema, keys: set<string>, os: seq<Mo>, orders: seq<seq<string>>, i: nat)
    requires |orders| <= |os|
  {
    i < |orders| && Plan(schema, keys, os, orders[..i + 1]).1 > i + 1
  }

  /** Until the plan leads, the pass does what was planned and has not touched what it still reads. */
  lemma {:induction false} PlanTracks(schema: Schema, q: Compaction, orders: seq<seq<string>>, i: nat)
    requires i <= |orders| <= |q.buf| && q.still == 0 && !q.overrun
    requires forall j: nat :: j < i ==> !Leads(schema, q.cache.Keys, q.buf, orders, j)
    ensures var r, (ks, writes) := VisitAll(schema, q, orders[..i]), Plan(schema, q.cache.Keys, q.buf, orders[..i]);
            !r.overrun && r.cache.Keys == ks && r.still == writes <= i && r.buf[i..] == q.buf[i..]
  {
    if i > 0 {
      var n: nat := i - 1;
      PlanTracks(schema, q, orders, n);
      assert orders[..i][..n] == orders[..n] && !Leads(schema, q.cache.Keys, q.buf, orders, n);
      var h := VisitAll(schema, q, orders[..n]);
      DropHead(h.buf, q.buf, n);
      if KeyOf(schema, h.buf[n]).Some? {
        FillAt(h.buf, h.still, Visit(h.cache.Keys, h.buf[n], orders[n]).0, h.buf[n]);
      }
    }
  }

  /** Whenever the plan first leads, it is by an object of which no relationship resolves; so it is
      when no object has both resolved and unresolved relationships when it is visited. */
  ghost predicate LeadsByStuck(schema: Schema, keys: set<string>, os: seq<Mo>, orders: seq<seq<string>>)
    requires |orders| <= |os|
  {
    forall i: nat :: Leads(schema, keys, os, orders, i)
        && (forall j: nat :: j < i ==> !Leads(schema, keys, os, orders, j))
      ==> Stuck(Plan(schema, keys, os, orders[..i]).0, os[i])
  }

  lemma UnmixedLeads(schema: Schema, keys: set<string>, os: seq<Mo>, orders: seq<seq<string>>)
    requires |orders| <= |os|
    requires forall i: nat :: i < |orders| ==>
               var ks := Plan(schema, keys, os, orders[..i]).0; Stuck(ks, os[i]) || Resolvable(ks, os[i])
    ensures LeadsByStuck(schema, keys, os, orders)
  {
    forall i: nat | Leads(schema, keys, os, orders, i) && forall j: nat :: j < i ==> !Leads(schema, keys, os, orders, j)
      ensures Stuck(Plan(schema, keys, os, orders[..i]).0, os[i])
    {
      var ks := Plan(schema, keys, os, orders[..i]).0;
      assert orders[..i + 1][..i] == orders[..i];
      assert i > 0 ==> !Leads(schema, keys, os, orders, i - 1);
      if Resolvable(ks, os[i]) {
        ResolvableVisit(ks, os[i], orders[i]);
      }
    }
  }

  /** Then a pass over any list overruns if and only if its plan leads somewhere. */
  lemma OverrunIff(schema: Schema, q: Compaction, orders: seq<seq<string>>)
    requires |orders| == |q.buf| && q.still == 0 && !q.overrun && Fit(schema, q, orders)
    requires LeadsByStuck(schema, q.cache.Keys, q.buf, orders)
    ensures VisitAll(schema, q, orders).overrun <==> exists i: nat :: Leads(schema, q.cache.Keys, q.buf, orders, i)
  {
    assert orders[..|orders|] == orders;
    hide Plan;
    hide VisitAll;
    hide Leaps;
    hide Stuck;
    hide Fit;
    if exists i: nat :: Leads(schema, q.cache.Keys, q.buf, orders, i) {
      var i := FirstLead(schema, q.cache.Keys, q.buf, orders);
      LeadLeaps(schema, q, orders, i);
      hide Leads;
      StuckOverruns(schema, q, orders, i);
    } else {
      PlanTracks(schema, q, orders, |orders|);
    }
  }

  lemma LeadLeaps(schema: Schema, q: Compaction, orders: seq<seq<string>>, i: nat)
    requires |orders| == |q.buf| && q.still == 0 && !q.overrun && Fit(schema, q, orders)
    requires Leads(schema, q.cache.Keys, q.buf, orders, i)
             && Stuck(Plan(schema, q.cache.Keys, q.buf, orders[..i]).0, q.buf[i])
    requires forall j: nat :: j < i ==> !Leads(schema, q.cache.Keys, q.buf, orders, j)
    ensures var r := VisitAll(schema, q, orders[..i]); !r.overrun && Leaps(schema, r, i)
  {
    PlanTracks(schema, q, orders, i);
    FitPrefix(schema, q, orders, i + 1);
    assert orders[..i + 1][..i] == orders[..i];
    var r := VisitAll(schema, q, orders[..i]);
    DropHead(r.buf, q.buf, i);
    hide VisitAll;
    VisitOutcome(r.cache.Keys, r.buf[i], orders[i]);
    hide Visit;
    hide Stuck;
  }

  lemma FirstLead(schema: Schema, keys: set<string>, os: seq<Mo>, orders: seq<seq<string>>) returns (i: nat)
    requires |orders| <= |os| && exists i: nat :: Leads(schema, keys, os, orders, i)
    ensures Leads(schema, keys, os, orders, i) && forall j: nat :: j < i ==> !Leads(schema, keys, os, orders, j)
  {
    i := 0;
    while !Leads(schema, keys, os, orders, i)
      invariant i <= |orders| && forall j: nat :: j < i ==> !Leads(schema, keys, os, orders, j)
      decreases |orders| - i
    {
      i := i + 1;
    }
  }

  /** Two writes are for two unresolved relationships. */
  lemma {:induction false} OneUnresolved(keys: set<string>, o: Mo, order: seq<string>) returns (p: string)
    requires Visit(keys, o, order).0 >= 1
    ensures p in order && p in Relations(o) && !ValueResolves(keys, o[p])
  {
    var n := |order| - 1;
    p := order[n];
    if Visit(keys, o, order[..n]).0 >= 1 {
      p := OneUnresolved(keys, o, order[..n]);
    }
  }

  lemma {:induction false} TwoUnresolved(keys: set<string>, o: Mo, order: seq<string>) returns (p: string, p': string)
    requires Visit(keys, o, order).0 >= 2 && forall i, j :: 0 <= i < j < |order| ==> order[i] != order[j]
    ensures p in Relations(o) && p' in Relations(o) && p != p' && !ValueResolves(keys, o[p])
            && !ValueResolves(keys, o[p'])
  {
    var n := |order| - 1;
    if Visit(keys, o, order[..n]).0 >= 2 {
      p, p' := TwoUnresolved(keys, o, order[..n]);
    } else {
      p := OneUnresolved(keys, o, order[..n]);
      p' := order[n];
    }
  }

  lemma {:induction false} FitPrefix(schema: Schema, q: Compaction, orders: seq<seq<string>>, i: nat)
    requires i <= |orders| <= |q.buf| && q.still <= |q.buf| && Fit(schema, q, orders)
    ensures Fit(schema, q, orders[..i])
  {
    if i == |orders| {
      assert orders[..i] == orders;
    } else {
      assert orders[..|orders| - 1][..i] == orders[..i];
      FitPrefix(schema, q, orders[..|orders| - 1], i);
    }
  }

  /** A pass overruns only over a list in which some object has several relationships. */
  lemma {:induction false} OverrunNeedsTwo(schema: Schema, q: Compaction, orders: seq<seq<string>>)
    requires |orders| <= |q.buf| && q.still == 0 && !q.overrun && Fit(schema, q, orders)
    requires AtMostOne(q.buf)
    ensures var r := VisitAll(schema, q, orders);
            !r.overrun && r.still <= |orders| && forall o :: o in r.buf ==> o in q.buf
  {
    if orders != [] {
      var n := |orders| - 1;
      OverrunNeedsTwo(schema, q, orders[..n]);
      var h := VisitAll(schema, q, orders[..n]);
      var o := h.buf[n];
      assert o in h.buf;
      VisitCounts(h.cache.Keys, o, orders[n]);
      assert Met(o, orders[n]) == Relations(o);
      FillAt(h.buf, h.still, Visit(h.cache.Keys, o, orders[n]).0, o);
    }
  }

  ghost predicate AtMostOne(os: seq<Mo>)
  {
    forall o :: o in os ==> |Relations(o)| <= 1
  }

  /** The passes made so far lead from start, with times passes to go, to f with left to go. */
  ghost predicate Made(schema: Schema, times: nat, start: Flow, passes: seq<seq<seq<string>>>, left: nat, f: Flow)
    decreases |passes|
  {
    if passes == [] then left == times && f == start
    else
      && times > 0 && start.parked != [] && |passes[0]| == |start.parked|
      && Fit(schema, Compaction(start.cache, start.out, start.parked, 0, false), passes[0])
      && Pass(schema, start, passes[0]).Some?
      && Made(schema, times - 1, Pass(schema, start, passes[0]).value, passes[1..], left, f)
  }

  lemma {:induction false} MadeMore(schema: Schema, times: nat, start: Flow, passes: seq<seq<seq<string>>>,
      left: nat, f: Flow,
                                    orders: seq<seq<string>>)
    requires Made(schema, times, start, passes, left, f) && left > 0 && f.parked != [] && |orders| == |f.parked|
    requires Fit(schema, Compaction(f.cache, f.out, f.parked, 0, false), orders) && Pass(schema, f, orders).Some?
    ensures Made(schema, times, start, passes + [orders], left - 1, Pass(schema, f, orders).value)
    decreases |passes|
  {
    hide Fit;
    hide Pass;
    if passes == [] {
      assert [orders][1..] == [];
      assert passes + [orders] == [orders];
    } else {
      MadeMore(schema, times - 1, Pass(schema, start, passes[0]).value, passes[1..], left, f, orders);
      assert (passes + [orders])[1..] == passes[1..] + [orders];
    }
  }

  /** Once no pass is left to make the whole is a run of passes. */
  lemma {:induction false} MadeAll(schema: Schema, times: nat, start: Flow, passes: seq<seq<seq<string>>>, left: nat,
      f: Flow)
    requires Made(schema, times, start, passes, left, f) && (left == 0 || f.parked == [])
    ensures Passes(schema, times, start, passes) == Some(f) && Ranged(schema, times, start, passes)
    decreases |passes|
  {
    hide Fit;
    hide Pass;
    if passes != [] {
      MadeAll(schema, times - 1, Pass(schema, start, passes[0]).value, passes[1..], left, f);
    }
  }

  lemma {:induction false} MadeKeeps(schema: Schema, times: nat, start: Flow, passes: seq<seq<seq<string>>>,
      left: nat, f: Flow)
    requires Made(schema, times, start, passes, left, f)
    ensures forall o :: o in f.parked ==> o in start.parked
    ensures passes != [] ==> !Jammed(schema, start.cache.Keys, start.parked)
    decreases |passes|
  {
    if passes != [] {
      var q := Compaction(start.cache, start.out, start.parked, 0, false);
      var ps := VisitPuts(schema, q, passes[0]);
      if Jammed(schema, start.cache.Keys, start.parked) {
        PassOverruns(schema, start.cache, start.out, start.parked, passes[0]);
      }
      hide VisitAll;
      MadeKeeps(schema, times - 1, Pass(schema, start, passes[0]).value, passes[1..], left, f);
    }
  }
}
