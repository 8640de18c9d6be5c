/** The cloud's copy of the inventory as a fold over the messages sent, and its agreement
    with the diff cache. */
module InventoryReplica {
  import opened Basics
  import opened InventoryCompaction
  import opened InventoryModel
  import opened InventoryRetry

  type Replica = map<string, Mo>

  // ------------------------------------------------------------ receiver

  /** An upsert merges properties into the object of the same key. */
  function ApplyUpsert(schema: Schema, r: Replica, o: Mo): Replica
  {
    match KeyOf(schema, o)
    case None => r
    case Some(k) => r[k := (if k in r then r[k] else map[]) + o]
  }

  function ApplyUpserts(schema: Schema, r: Replica, os: seq<Mo>): Replica
  {
    if os == [] then r else ApplyUpsert(schema, ApplyUpserts(schema, r, os[..|os| - 1]), os[|os| - 1])
  }

  /** The receiver is not in the repository, so both orders within a message are considered. */
  datatype Receiver = UpsertsFirst | DeletesFirst

  ghost function Receive(schema: Schema, recv: Receiver, r: Replica, m: Message): Replica
  {
    match recv
    case UpsertsFirst => ApplyUpserts(schema, r, m.upserts) - KeysOf(schema, m.deletes)
    case DeletesFirst => ApplyUpserts(schema, r - KeysOf(schema, m.deletes), m.upserts)
  }

  ghost function ReceiveAll(schema: Schema, recv: Receiver, r: Replica, ms: seq<Message>): Replica
  {
    if ms == [] then r
    else Receive(schema, recv, ReceiveAll(schema, recv, r, ms[..|ms| - 1]), ms[|ms| - 1])
  }

  lemma {:induction false} ReceiveConcat(schema: Schema, recv: Receiver, r: Replica, xs: seq<Message>, ys: seq<Message>)
    ensures ReceiveAll(schema, recv, r, xs + ys) == ReceiveAll(schema, recv, ReceiveAll(schema, recv, r, xs), ys)
  {
    if ys == [] {
      assert xs + ys == xs;
    } else {
      var n := |ys| - 1;
      assert (xs + ys)[..|xs| + n] == xs + ys[..n];
      ReceiveConcat(schema, recv, r, xs, ys[..n]);
    }
  }

  lemma {:induction false} UpsertsConcat(schema: Schema, r: Replica, xs: seq<Mo>, ys: seq<Mo>)
    ensures ApplyUpserts(schema, r, xs + ys) == ApplyUpserts(schema, ApplyUpserts(schema, r, xs), ys)
  {
    if ys == [] {
      assert xs + ys == xs;
    } else {
      var n := |ys| - 1;
      assert (xs + ys)[..|xs| + n] == xs + ys[..n];
      UpsertsConcat(schema, r, xs, ys[..n]);
    }
  }

  lemma PutThenRemove(a: Replica, k: string, x: Mo, ks: set<string>)
    ensures a[k := x] - ks == if k in ks then a - ks else (a - ks)[k := x]
  {
  }

  lemma SameOutside(a: Replica, b: Replica, k: string, ks: set<string>)
    requires a - ks == b - ks && k !in ks
    ensures k in a <==> k in b
    ensures k in a ==> a[k] == b[k]
  {
    assert k in a <==> k in a - ks;
    assert k in b <==> k in b - ks;
    if k in a { assert (a - ks)[k] == (b - ks)[k]; }
  }

  /** Keys removed before some upserts stay away if they are removed after them as well. */
  lemma {:induction false} RemoveTwice(schema: Schema, r: Replica, os: seq<Mo>, ks: set<string>)
    ensures ApplyUpserts(schema, r - ks, os) - ks == ApplyUpserts(schema, r, os) - ks
  {
    if os != [] {
      var n := |os| - 1;
      RemoveTwice(schema, r, os[..n], ks);
      var a, b := ApplyUpserts(schema, r - ks, os[..n]), ApplyUpserts(schema, r, os[..n]);
      if KeyOf(schema, os[n]).Some? {
        var k := KeyOf(schema, os[n]).value;
        if k !in ks { SameOutside(a, b, k, ks); }
        PutThenRemove(a, k, (if k in a then a[k] else map[]) + os[n], ks);
        PutThenRemove(b, k, (if k in b then b[k] else map[]) + os[n], ks);
      }
    }
  }

  /** Upserts of other keys commute with a removal. */
  lemma {:induction false} RemoveCommutes(schema: Schema, r: Replica, os: seq<Mo>, ks: set<string>)
    requires KeysOf(schema, os) !! ks
    ensures ApplyUpserts(schema, r - ks, os) == ApplyUpserts(schema, r, os) - ks
  {
    if os != [] {
      var n := |os| - 1;
      assert os == os[..n] + [os[n]];
      KeysOfAppend(schema, os[..n], os[n]);
      RemoveCommutes(schema, r, os[..n], ks);
    }
  }

  /** Repeating the deletes in every batch does no harm: the batches of a report leave the
      receiver where its upserts followed by its deletes would. */
  lemma {:induction false} BatchesReceived(schema: Schema, recv: Receiver, r: Replica, kind: ReportType, full: bool,
                                           ups: seq<Mo>, dels: seq<Mo>)
    requires recv == UpsertsFirst || KeysOf(schema, ups) !! KeysOf(schema, dels)
    ensures ReceiveAll(schema, recv, r, Batches(kind, full, ups, dels))
            == ApplyUpserts(schema, r, ups) - KeysOf(schema, dels)
    decreases |ups|
  {
    var ks := KeysOf(schema, dels);
    var head := if |ups| > BATCH then ups[..BATCH] else ups;
    var first := Message(if !full then Incremental else if |ups| <= BATCH then kind else FullSegment, head, dels);
    assert KeysOf(schema, head) <= KeysOf(schema, ups);
    if recv == DeletesFirst {
      RemoveCommutes(schema, r, head, ks);
    }
    assert Receive(schema, recv, r, first) == ApplyUpserts(schema, r, head) - ks;
    assert [first][..0] == [];
    assert ReceiveAll(schema, recv, r, [first]) == Receive(schema, recv, ReceiveAll(schema, recv, r, []), first);
    if |ups| > BATCH {
      var rest := ups[BATCH..];
      assert KeysOf(schema, rest) <= KeysOf(schema, ups);
      ReceiveConcat(schema, recv, r, [first], Batches(kind, full, rest, dels));
      BatchesReceived(schema, recv, ApplyUpserts(schema, r, head) - ks, kind, full, rest, dels);
      RemoveTwice(schema, ApplyUpserts(schema, r, head), rest, ks);
      UpsertsConcat(schema, r, head, rest);
      assert head + rest == ups;
    }
  }

  // ----------------------------------------------------------- agreement

  /** copy has every property of o with o's value. */
  ghost predicate Covers(copy: Mo, o: Mo)
  {
    forall p :: p in o ==> p in copy && copy[p] == o[p]
  }

  /** Same keys, and the replica agrees with the cache on every property the cache holds,
      leaving aside the keys in except. */
  ghost predicate MirrorsExcept(r: Replica, c: Cache, except: set<string>)
  {
    forall k :: k !in except ==> (k in r <==> k in c) && (k in c ==> Covers(r[k], c[k]))
  }

  ghost predicate Mirrors(r: Replica, c: Cache)
  {
    r.Keys == c.Keys && forall k :: k in c ==> Covers(r[k], c[k])
  }

  ghost predicate CacheKeyed(schema: Schema, c: Cache)
  {
    forall k :: k in c ==> KeyOf(schema, c[k]) == Some(k)
  }

  predicate NoNulls(o: Mo)
  {
    forall p :: p in o ==> o[p] != Null
  }

  // --------------------------------------------------------------- diffs

  lemma {:induction false} FieldKeyFrame(schema: Schema, fields: seq<string>, a: Mo, b: Mo)
    requires forall f :: f in fields ==> f in a && f in b && a[f] == b[f]
    ensures FieldKey(schema, fields, a) == FieldKey(schema, fields, b)
  {
    if fields != [] {
      FieldKeyFrame(schema, fields[..|fields| - 1], a, b);
    }
  }

  lemma {:induction false} FieldKeyPresent(schema: Schema, fields: seq<string>, o: Mo)
    requires FieldKey(schema, fields, o).Some?
    ensures forall f :: f in fields ==> f in o
  {
    if fields != [] {
      FieldKeyPresent(schema, fields[..|fields| - 1], o);
    }
  }

  /** A diff takes every property from the new object and keeps its key. */
  lemma DiffKeepsKey(schema: Schema, new_: Mo, old_: Mo)
    requires KeyOf(schema, new_).Some? && Diff(schema, new_, old_).Some?
    ensures Covers(new_, Diff(schema, new_, old_).value)
    ensures KeyOf(schema, Diff(schema, new_, old_).value) == KeyOf(schema, new_)
  {
    var d := Diff(schema, new_, old_).value;
    var t := TypeOf(new_).value;
    var ids := schema.identities[t];
    FieldKeyPresent(schema, ids, new_);
    FieldKeyFrame(schema, ids, d, new_);
  }

  /** Merging a diff into any copy of the old object yields a copy of the new one exactly
      when every nil-valued, non-identity property of the new object existed before. */
  lemma DiffRestoresNew(schema: Schema, new_: Mo, old_: Mo)
    requires KeyOf(schema, new_).Some? && Diff(schema, new_, old_).Some?
    ensures (forall copy: Mo :: Covers(copy, old_) ==> Covers(copy + Diff(schema, new_, old_).value, new_))
            <==> (forall p :: p in new_ && new_[p] == Null && p !in schema.identities[TypeOf(new_).value] ==> p in old_)
  {
    DiffKeepsKey(schema, new_, old_);
    var d := Diff(schema, new_, old_).value;
    if p :| p in new_ && new_[p] == Null && p !in schema.identities[TypeOf(new_).value] && p !in old_ {
      var copy: Mo := old_[p := Flag(true)];
      assert p !in d;
      assert Covers(copy, old_) && !Covers(copy + d, new_);
    } else {
      forall copy: Mo | Covers(copy, old_)
        ensures Covers(copy + d, new_)
      {
        forall p | p in new_
          ensures p in copy + d && (copy + d)[p] == new_[p]
        {
          if p !in d { assert p !in Changed(new_, old_); }
        }
      }
    }
  }

  /** Without nil values, applying a diff to the old object itself gives the new one exactly
      when no property was removed: removals are never reported. */
  lemma DiffMissesRemovals(schema: Schema, new_: Mo, old_: Mo)
    requires KeyOf(schema, new_).Some? && Diff(schema, new_, old_).Some? && NoNulls(new_)
    ensures old_ + Diff(schema, new_, old_).value == new_ <==> old_.Keys <= new_.Keys
  {
    var d := Diff(schema, new_, old_).value;
    DiffKeepsKey(schema, new_, old_);
    DiffRestoresNew(schema, new_, old_);
    assert Covers(old_, old_) && Covers(old_ + d, new_);
    if old_.Keys <= new_.Keys {
      assert (old_ + d).Keys == new_.Keys;
    }
  }

  /** Without nil values nothing is reported exactly when the old object already agrees with the
      new one, and a diff holds no property that was there before with the same value. */
  lemma DiffIsMinimal(schema: Schema, new_: Mo, old_: Mo)
    requires KeyOf(schema, new_).Some? && NoNulls(new_)
    ensures Diff(schema, new_, old_) == None <==> Covers(old_, new_)
    ensures Diff(schema, new_, old_).Some? ==>
              forall p :: p in Diff(schema, new_, old_).value && p != OBJECT_TYPE
                  && p !in schema.identities[TypeOf(new_).value]
                ==> p in new_ && !(p in old_ && old_[p] == new_[p])
  {
    var changed := Changed(new_, old_);
    if Covers(old_, new_) {
      assert forall p :: p in new_ ==> !Differs(new_[p], old_, p);
      assert changed == map[];
    } else {
      var p :| p in new_ && !(p in old_ && old_[p] == new_[p]);
      assert p in changed;
    }
  }

  // ------------------------------------------------- keys in every state

  /** What every reachable state keeps. */
  ghost predicate Sound(schema: Schema, s: State)
  {
    CacheKeyed(schema, s.cache) && Keyed(schema, s.parked)
  }

  lemma {:induction false} IngestSound(schema: Schema, f: Flow, os: seq<Mo>)
    requires CacheKeyed(schema, f.cache) && Keyed(schema, f.parked)
    ensures var g := Ingest(schema, f, os); CacheKeyed(schema, g.cache) && Keyed(schema, g.parked)
  {
    if os != [] {
      IngestSound(schema, f, os[..|os| - 1]);
    }
  }

  lemma {:induction false} PutAllSound(schema: Schema, f: Flow, ps: seq<Mo>)
    requires CacheKeyed(schema, f.cache)
    ensures CacheKeyed(schema, PutAll(schema, f, ps).cache)
  {
    if ps != [] {
      PutAllSound(schema, f, ps[..|ps| - 1]);
    }
  }

  /** A report leaves every cached object under its own key, and parks only keyed objects. */
  lemma AbsorbSound(schema: Schema, s: State, e: Event)
    requires Sound(schema, s)
    ensures CacheKeyed(schema, Digest(schema, s, e.report).0.cache)
            && Keyed(schema, Digest(schema, s, e.report).0.parked)
    ensures var (f, ds) := Absorb(schema, s, e); CacheKeyed(schema, f.cache) && Keyed(schema, f.parked)
  {
    var f0 := Ingest(schema, Flow(s.cache, [], s.parked), e.report.upserts);
    IngestSound(schema, Flow(s.cache, [], s.parked), e.report.upserts);
    DiscardRemoves(schema, f0.cache, e.report.deletes);
    var g := Digest(schema, s, e.report).0;
    var ps := AbsorbPuts(schema, s, e);
    PutAllSound(schema, Flow(g.cache, g.out, []), ps);
  }

  // ------------------------------------------- one report, stage by stage

  lemma UpsertsAppend(schema: Schema, r: Replica, os: seq<Mo>, o: Mo)
    ensures ApplyUpserts(schema, r, os + [o]) == ApplyUpsert(schema, ApplyUpserts(schema, r, os), o)
  {
  }

  lemma PutMirrors(r: Replica, c: Cache, k: string, copy: Mo, o: Mo)
    requires Mirrors(r, c) && Covers(copy, o)
    ensures Mirrors(r[k := copy], c[k := o])
  {
  }

  lemma MergeCovers(schema: Schema, copy: Mo, new_: Mo, old_: Mo)
    requires KeyOf(schema, new_).Some? && Diff(schema, new_, old_).Some? && NoNulls(new_)
    requires Covers(copy, old_)
    ensures Covers(copy + Diff(schema, new_, old_).value, new_)
  {
    DiffRestoresNew(schema, new_, old_);
  }

  lemma IngestOneMirrors(schema: Schema, r: Replica, f: Flow, o: Mo)
    requires Mirrors(ApplyUpserts(schema, r, f.out), f.cache) && NoNulls(o)
    ensures var g := IngestOne(schema, f, o); Mirrors(ApplyUpserts(schema, r, g.out), g.cache)
  {
    if KeyOf(schema, o).Some? && Resolvable(f.cache.Keys, o) {
      var k := KeyOf(schema, o).value;
      var rf := ApplyUpserts(schema, r, f.out);
      if k !in f.cache {
        UpsertsAppend(schema, r, f.out, o);
        PutMirrors(rf, f.cache, k, map[] + o, o);
      } else if Diff(schema, o, f.cache[k]).Some? {
        var d := Diff(schema, o, f.cache[k]).value;
        UpsertsAppend(schema, r, f.out, d);
        DiffKeepsKey(schema, o, f.cache[k]);
        MergeCovers(schema, rf[k], o, f.cache[k]);
        PutMirrors(rf, f.cache, k, rf[k] + d, o);
      }
    }
  }

  lemma {:induction false} IngestMirrors(schema: Schema, r: Replica, c: Cache, parked: seq<Mo>, os: seq<Mo>)
    requires Mirrors(r, c)
    requires forall o :: o in os ==> NoNulls(o)
    ensures var f := Ingest(schema, Flow(c, [], parked), os); Mirrors(ApplyUpserts(schema, r, f.out), f.cache)
  {
    if os != [] {
      var n := |os| - 1;
      IngestMirrors(schema, r, c, parked, os[..n]);
      IngestOneMirrors(schema, r, Ingest(schema, Flow(c, [], parked), os[..n]), os[n]);
    }
  }

  lemma PutMirrorsExcept(r: Replica, c: Cache, k: string, copy: Mo, o: Mo, except: set<string>)
    requires MirrorsExcept(r, c, except) && Covers(copy, o)
    ensures MirrorsExcept(r[k := copy], c[k := o], except)
  {
  }

  lemma {:induction false} PutAllMirrors(schema: Schema, r: Replica, f: Flow, ps: seq<Mo>, except: set<string>)
    requires MirrorsExcept(ApplyUpserts(schema, r, f.out), f.cache, except)
    ensures var g := PutAll(schema, f, ps); MirrorsExcept(ApplyUpserts(schema, r, g.out), g.cache, except)
  {
    if ps != [] {
      var n := |ps| - 1;
      PutAllMirrors(schema, r, f, ps[..n], except);
      var h := PutAll(schema, f, ps[..n]);
      if KeyOf(schema, ps[n]).Some? {
        var k, rh := KeyOf(schema, ps[n]).value, ApplyUpserts(schema, r, h.out);
        UpsertsAppend(schema, r, h.out, ps[n]);
        PutMirrorsExcept(rh, h.cache, k, (if k in rh then rh[k] else map[]) + ps[n], ps[n], except);
      }
    }
  }

  lemma {:induction false} DiscardRemoves(schema: Schema, c: Cache, os: seq<Mo>)
    ensures var (c', ds) := Discard(schema, c, os);
            && c' == c - KeysOf(schema, ds)
            && KeysOf(schema, ds) == KeysOf(schema, os) * c.Keys
  {
    if os != [] {
      var n := |os| - 1;
      DiscardRemoves(schema, c, os[..n]);
      var (c', ds) := Discard(schema, c, os[..n]);
      assert os == os[..n] + [os[n]];
      KeysOfAppend(schema, os[..n], os[n]);
      KeysOfAppend(schema, ds, os[n]);
    }
  }

  lemma {:induction false} SweepRemoves(schema: Schema, c: Cache, reported: set<string>, order: seq<string>)
    requires CacheKeyed(schema, c)
    ensures var (c', ds) := Sweep(c, reported, order);
            && c' == c - KeysOf(schema, ds)
            && KeysOf(schema, ds) == (set k | k in order && k in c && k !in reported)
  {
    if order != [] {
      var n := |order| - 1;
      SweepRemoves(schema, c, reported, order[..n]);
      var (c', ds) := Sweep(c, reported, order[..n]);
      var k := order[n];
      assert forall x :: x in order <==> x in order[..n] || x == k by {
        assert order == order[..n] + [k];
      }
      if k in c' && k !in reported {
        KeysOfAppend(schema, ds, c'[k]);
      }
    }
  }

  // ------------------------------------------------------- whole reports

  /** The messages of a report act as its upserts followed by its deletes. */
  lemma ReceivedOf(schema: Schema, recv: Receiver, s: State, e: Event, r: Replica)
    requires var out := Step(schema, s, e);
             recv == UpsertsFirst || KeysOf(schema, out.upserts) !! KeysOf(schema, out.deletes)
    ensures var out := Step(schema, s, e);
            ReceiveAll(schema, recv, r, out.messages)
                == ApplyUpserts(schema, r, out.upserts) - KeysOf(schema, out.deletes)
  {
    var out := Step(schema, s, e);
    if Sends(s, e.report.kind, out.upserts, out.deletes) {
      BatchesReceived(schema, recv, r, e.report.kind, s.sendFull, out.upserts, out.deletes);
    } else {
      assert out.upserts == [] && out.deletes == [] && out.messages == [];
      assert KeysOf(schema, out.deletes) == {};
    }
  }

  /** Up to the sweep, only the deleted keys can disagree. */
  lemma AbsorbMirrors(schema: Schema, s: State, e: Event, r: Replica)
    requires Mirrors(r, s.cache)
    requires forall o :: o in e.report.upserts ==> NoNulls(o)
    ensures var (f, ds) := Absorb(schema, s, e);
            MirrorsExcept(ApplyUpserts(schema, r, f.out), f.cache, KeysOf(schema, ds))
  {
    var f0 := Ingest(schema, Flow(s.cache, [], s.parked), e.report.upserts);
    IngestMirrors(schema, r, s.cache, s.parked, e.report.upserts);
    DiscardRemoves(schema, f0.cache, e.report.deletes);
    var (g, ds) := Digest(schema, s, e.report);
    assert MirrorsExcept(ApplyUpserts(schema, r, g.out), g.cache, KeysOf(schema, ds));
    var ps := AbsorbPuts(schema, s, e);
    PutAllMirrors(schema, r, Flow(g.cache, g.out, []), ps, KeysOf(schema, ds));
  }

  lemma KeysOfConcat(schema: Schema, xs: seq<Mo>, ys: seq<Mo>)
    ensures KeysOf(schema, xs + ys) == KeysOf(schema, xs) + KeysOf(schema, ys)
  {
  }

  /** The swept keys leave the cache and nothing else does. */
  lemma StepSweeps(schema: Schema, s: State, e: Event)
    requires CacheKeyed(schema, Absorb(schema, s, e).0.cache)
    ensures var (f, ds) := Absorb(schema, s, e);
            var out := Step(schema, s, e);
            && out.upserts == f.out && ds <= out.deletes
            && out.state.cache == f.cache - KeysOf(schema, out.deletes[|ds|..])
            && KeysOf(schema, out.deletes) == KeysOf(schema, ds) + KeysOf(schema, out.deletes[|ds|..])
  {
    var (f, ds) := Absorb(schema, s, e);
    SweepRemoves(schema, f.cache, ReportedAfter(schema, s, e.report), e.order);
    var out := Step(schema, s, e);
    var swept := out.deletes[|ds|..];
    assert out.deletes == ds + swept;
    KeysOfConcat(schema, ds, swept);
    if e.report.kind != FullEnd {
      assert swept == [] && KeysOf(schema, swept) == {};
    }
  }

  lemma RemoveMirrors(r: Replica, c: Cache, gone: set<string>, swept: set<string>)
    requires MirrorsExcept(r, c, gone)
    ensures Mirrors(r - (gone + swept), c - swept) <==> gone !! (c - swept).Keys
  {
  }

  /** Replica agreement after one report when the receiver applies upserts first: it holds
      exactly when the retry put back no key that the same report deleted. */
  lemma ReportMirrors(schema: Schema, s: State, e: Event, r: Replica)
    requires Sound(schema, s) && Mirrors(r, s.cache)
    requires forall o :: o in e.report.upserts ==> NoNulls(o)
    ensures Sound(schema, Step(schema, s, e).state)
    ensures Mirrors(ReceiveAll(schema, UpsertsFirst, r, Step(schema, s, e).messages), Step(schema, s, e).state.cache)
            <==> KeysOf(schema, Absorb(schema, s, e).1) !! Step(schema, s, e).state.cache.Keys
  {
    var (f, ds) := Absorb(schema, s, e);
    AbsorbMirrors(schema, s, e, r);
    AbsorbSound(schema, s, e);
    StepSweeps(schema, s, e);
    ReceivedOf(schema, UpsertsFirst, s, e, r);
    var swept := KeysOf(schema, Step(schema, s, e).deletes[|ds|..]);
    RemoveMirrors(ApplyUpserts(schema, r, f.out), f.cache, KeysOf(schema, ds), swept);
  }
}
