/** What processing the upserts and deletes of a report achieves, stated on the report itself:
    who is cached, who has to wait, and what is cached for each key. */
module InventoryIngest {
  import opened Basics
  import opened InventoryModel
  import opened InventoryReplica
  import opened InventoryRetry

  /** An upsert with a key all of whose targets are among keys. */
  predicate Accepted(schema: Schema, keys: set<string>, o: Mo)
  {
    KeyOf(schema, o).Some? && Resolvable(keys, o)
  }

  /** The cached keys after some upserts: each accepted one adds its key for those that follow. */
  function KeysAfter(schema: Schema, keys: set<string>, os: seq<Mo>): set<string>
  {
    if os == [] then keys
    else
      var n := |os| - 1;
      var ks := KeysAfter(schema, keys, os[..n]);
      if Accepted(schema, ks, os[n]) then ks + {KeyOf(schema, os[n]).value} else ks
  }

  /** The upserts with a key that have an unresolved target when they are met, in order. */
  function Waiting(schema: Schema, keys: set<string>, os: seq<Mo>): seq<Mo>
  {
    if os == [] then []
    else
      var n := |os| - 1;
      var o := os[n];
      Waiting(schema, keys, os[..n])
      + (if KeyOf(schema, o).Some? && !Resolvable(KeysAfter(schema, keys, os[..n]), o) then [o] else [])
  }

  /** The last upsert of a key that was accepted. */
  function LastAccepted(schema: Schema, keys: set<string>, os: seq<Mo>, k: string): (r: Option<Mo>)
    ensures r.Some? ==> r.value in os && KeyOf(schema, r.value) == Some(k)
  {
    if os == [] then None
    else
      var n := |os| - 1;
      if KeyOf(schema, os[n]) == Some(k) && Accepted(schema, KeysAfter(schema, keys, os[..n]), os[n]) then Some(os[n])
      else LastAccepted(schema, keys, os[..n], k)
  }

  /** Exactly the upserts with a key and an unresolved target are parked, in order, behind what
      was parked before; the others with a key are cached. */
  lemma {:induction false} IngestParksExactly(schema: Schema, f: Flow, os: seq<Mo>)
    ensures var g := Ingest(schema, f, os);
            && g.cache.Keys == KeysAfter(schema, f.cache.Keys, os)
            && g.parked == f.parked + Waiting(schema, f.cache.Keys, os)
  {
    hide Resolvable;
    hide KeyOf;
    hide Diff;
    if os != [] {
      IngestParksExactly(schema, f, os[..|os| - 1]);
    }
  }

  /** Without nil values the cached object of a key has every property of the last upsert of
      the key that was accepted; other cached objects are as before. */
  lemma {:induction false} IngestCachesLast(schema: Schema, f: Flow, os: seq<Mo>, k: string)
    requires forall o :: o in os ==> NoNulls(o)
    ensures var g, last := Ingest(schema, f, os), LastAccepted(schema, f.cache.Keys, os, k);
            if last.Some? then k in g.cache && Covers(g.cache[k], last.value)
            else (k in g.cache <==> k in f.cache) && (k in f.cache ==> g.cache[k] == f.cache[k])
  {
    if os != [] {
      var n := |os| - 1;
      IngestCachesLast(schema, f, os[..n], k);
      IngestParksExactly(schema, f, os[..n]);
      hide Resolvable;
      hide NoNulls;
      hide Covers;
      IngestOneCaches(schema, Ingest(schema, f, os[..n]), os[n]);
    }
  }

  lemma IngestOneCaches(schema: Schema, f: Flow, o: Mo)
    requires NoNulls(o)
    ensures var g := IngestOne(schema, f, o);
            && (Accepted(schema, f.cache.Keys, o) ==>
                  var k := KeyOf(schema, o).value;
                  k in g.cache && Covers(g.cache[k], o) && g.cache - {k} == f.cache - {k})
            && (!Accepted(schema, f.cache.Keys, o) ==> g.cache == f.cache)
  {
    if Accepted(schema, f.cache.Keys, o) {
      var k := KeyOf(schema, o).value;
      if k in f.cache {
        DiffIsMinimal(schema, o, f.cache[k]);
      }
      assert Covers(o, o);
    }
  }

  /** Every accepted upsert agrees with the object cached for its key. */
  ghost predicate Agreed(schema: Schema, c: Cache, os: seq<Mo>)
  {
    forall i :: 0 <= i < |os| && Accepted(schema, KeysAfter(schema, c.Keys, os[..i]), os[i]) ==>
      var k := KeyOf(schema, os[i]).value; k in c && Covers(c[k], os[i])
  }

  lemma AgreedNext(schema: Schema, c: Cache, os: seq<Mo>)
    requires os != []
    ensures var n := |os| - 1;
      Agreed(schema, c, os)
      <==> Agreed(schema, c, os[..n])
           && (Accepted(schema, KeysAfter(schema, c.Keys, os[..n]), os[n]) ==>
                 var k := KeyOf(schema, os[n]).value; k in c && Covers(c[k], os[n]))
  {
    var n := |os| - 1;
    hide Accepted;
    hide Covers;
    hide KeysAfter;
    hide KeyOf;
    assert forall i :: 0 <= i <= n ==> os[..n][..i] == os[..i];
  }

  /** Without nil values nothing is produced for some upserts if and only if each accepted one
      agrees with what is cached, and then the cache is as before; otherwise something is. */
  lemma {:induction false} IngestSilentIff(schema: Schema, f: Flow, os: seq<Mo>)
    requires forall o :: o in os ==> NoNulls(o)
    ensures var g := Ingest(schema, f, os);
            && f.out <= g.out
            && (g.out == f.out <==> Agreed(schema, f.cache, os))
            && (g.out == f.out ==> g.cache == f.cache)
  {
    hide Resolvable;
    hide NoNulls;
    hide Covers;
    hide Agreed;
    if os == [] {
      AgreedNone(schema, f.cache);
    } else {
      var n := |os| - 1;
      IngestSilentIff(schema, f, os[..n]);
      IngestParksExactly(schema, f, os[..n]);
      AgreedNext(schema, f.cache, os);
      IngestOneSilent(schema, Ingest(schema, f, os[..n]), os[n]);
      hide IngestOne;
    }
  }

  lemma AgreedNone(schema: Schema, c: Cache)
    ensures Agreed(schema, c, [])
  {
  }

  lemma IngestOneSilent(schema: Schema, f: Flow, o: Mo)
    requires NoNulls(o)
    ensures var g := IngestOne(schema, f, o);
            var agrees := Accepted(schema, f.cache.Keys, o) ==>
                            var k := KeyOf(schema, o).value; k in f.cache && Covers(f.cache[k], o);
            f.out <= g.out && (agrees ==> g.out == f.out && g.cache == f.cache) && (!agrees ==> |g.out| > |f.out|)
  {
    if Accepted(schema, f.cache.Keys, o) && KeyOf(schema, o).value in f.cache {
      DiffIsMinimal(schema, o, f.cache[KeyOf(schema, o).value]);
    }
  }

  /** Deletes remove exactly the cached keys they name, and pass on one delete for each. */
  lemma {:induction false} DiscardsExactly(schema: Schema, c: Cache, os: seq<Mo>)
    ensures var (c', ds) := Discard(schema, c, os);
            && c' == c - KeysOf(schema, os)
            && (forall d :: d in ds ==> d in os && KeyOf(schema, d).Some?)
            && KeysOf(schema, ds) == KeysOf(schema, os) * c.Keys
            && (forall i, j :: 0 <= i < j < |ds| ==> KeyOf(schema, ds[i]) != KeyOf(schema, ds[j]))
  {
    hide KeyOf;
    if os == [] {
      assert KeysOf(schema, os) == {};
    } else {
      var n := |os| - 1;
      DiscardsExactly(schema, c, os[..n]);
      KeysOfAppend(schema, os[..n], os[n]);
      KeysOfAppend(schema, Discard(schema, c, os[..n]).1, os[n]);
      assert os == os[..n] + [os[n]];
      hide KeysOf;
    }
  }
}
