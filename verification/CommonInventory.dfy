/** The inventory plugin in the source's form: a diff cache object and a processing loop
    that updates it, each method proved against the functions of InventoryModel. */
module CommonInventory {
  import opened Basics
  import opened InventoryModel
  import opened InventoryRetry
  import opened InventoryCompaction
  import Text

  class DiffCache {
    var objects: Cache

    constructor ()
      ensures objects == map[]
    {
      objects := map[];
    }

    method Get(key: string) returns (o: Option<Mo>)
      ensures o == if key in objects then Some(objects[key]) else None
    {
      if key in objects { o := Some(objects[key]); } else { o := None; }
    }

    method Put(key: string, value: Mo)
      modifies this
      ensures objects == old(objects)[key := value]
    {
      objects := objects[key := value];
    }

    method Delete(key: string)
      modifies this
      ensures objects == old(objects) - {key}
    {
      objects := objects - {key};
    }

    /** All keys, in no particular order. */
    method Keys() returns (ks: seq<string>)
      ensures Lists(ks, objects.Keys)
    {
      ks := Enumerate(objects.Keys);
    }

    method Drop()
      modifies this
      ensures objects == map[]
    {
      objects := map[];
    }
  }

  lemma {:induction false} FieldKeyStops(schema: Schema, fields: seq<string>, i: nat, o: Mo)
    requires i < |fields| && fields[i] !in o
    ensures FieldKey(schema, fields, o) == None
  {
    var n := |fields| - 1;
    if i < n {
      FieldKeyStops(schema, fields[..n], i, o);
    }
  }

  lemma TypesOfAppend(os: seq<Mo>, o: Mo)
    ensures TypesOf(os + [o]) == TypesOf(os) + (if TypeOf(o).Some? then {TypeOf(o).value} else {})
  {
  }

  class Inventory {
    const schema: Schema
    const diffCache: DiffCache
    var relmissing: seq<Mo>
    var fullInventoryKeys: set<string>
    var sendFull: bool

    constructor (schema: Schema)
      ensures fresh(diffCache) && this.schema == schema && Now() == FRESH
    {
      this.schema := schema;
      diffCache := new DiffCache();
      relmissing, fullInventoryKeys, sendFull := [], {}, true;
    }

    ghost function Now(): State
      reads this, diffCache
    {
      State(diffCache.objects, relmissing, fullInventoryKeys, sendFull)
    }

    method ConstructKey(o: Mo) returns (key: Option<string>)
      ensures key == KeyOf(schema, o)
    {
      if OBJECT_TYPE !in o || !o[OBJECT_TYPE].Str? {
        return None;
      }
      var t := o[OBJECT_TYPE].s;
      if t !in schema.identities {
        return None;
      }
      var ids := schema.identities[t];
      var head := "ObjectType=" + t;
      var buf := head;
      for i := 0 to |ids|
        invariant FieldKey(schema, ids[..i], o).Some?
        invariant buf == head + FieldKey(schema, ids[..i], o).value
      {
        if ids[i] !in o {
          FieldKeyStops(schema, ids, i, o);
          return None;
        }
        assert ids[..i + 1][..i] == ids[..i];
        var k := FieldKey(schema, ids[..i], o).value;
        buf := buf + ":" + ids[i] + "=" + schema.show(o[ids[i]]);
        assert buf == head + (k + ":" + ids[i] + "=" + schema.show(o[ids[i]]));
      }
      assert ids[..|ids|] == ids;
      key := Some(buf);
    }

    method ResolveRelationship(moref: MoRef) returns (found: bool)
      ensures found == RefResolves(diffCache.objects.Keys, moref)
    {
      if moref.selector == "" {
        return false;
      }
      var relkey := "ObjectType=" + moref.objectType;
      var idparts := Text.Split(moref.selector, " eq ");
      if |idparts| != 2 {
        return false;
      }
      relkey := relkey + ":" + idparts[0] + "=" + Text.Trim(idparts[1], '\'');
      assert relkey == "ObjectType=" + moref.objectType + ":" + idparts[0] + "=" + Text.Trim(idparts[1], '\'');
      var rel := diffCache.Get(relkey);
      found := rel.Some?;
    }

    /** Whether all references of one property resolve. */
    method ResolveValue(v: Value) returns (allFound: bool)
      ensures allFound == ValueResolves(diffCache.objects.Keys, v)
    {
      hide RefResolves;
      allFound := true;
      match v
      case Refs(rs) =>
        for i := 0 to |rs|
          invariant allFound <==> forall j :: 0 <= j < i ==> RefResolves(diffCache.objects.Keys, rs[j])
        {
          var found := ResolveRelationship(rs[i]);
          if !found {
            allFound := false;
          }
        }
      case Ref(r) =>
        allFound := ResolveRelationship(r);
        assert RefsIn(v) == [r];
      case _ =>
    }

    /** The relationship check on an incoming object, properties met in any order. */
    method RelationsResolve(o: Mo) returns (ok: bool)
      ensures ok == Resolvable(diffCache.objects.Keys, o)
    {
      var left := o.Keys;
      while left != {}
        invariant left <= o.Keys
        invariant forall p :: p in o && p !in left ==> ValueResolves(diffCache.objects.Keys, o[p])
        decreases left
      {
        var p :| p in left;
        left := left - {p};
        var found := ResolveValue(o[p]);
        if !found {
          return false;
        }
      }
      ok := true;
    }

    /** The property loop of calculateDiff, properties met in any order. */
    method ChangedProperties(new_: Mo, old_: Mo) returns (d: Mo)
      ensures d == Changed(new_, old_)
    {
      var left := new_.Keys;
      d := map[];
      while left != {}
        invariant left <= new_.Keys
        invariant d == map p | p in new_ && p !in left && Differs(new_[p], old_, p) :: new_[p]
        decreases left
      {
        var p :| p in left;
        left := left - {p};
        var same;
        match new_[p] {
          case Null => same := p !in old_ || old_[p] == Null;
          case v => same := p in old_ && old_[p] == v;
        }
        if !same {
          d := d[p := new_[p]];
        }
      }
    }

    method CalculateDiff(new_: Mo, old_: Mo) returns (out: Option<Mo>)
      ensures out == Diff(schema, new_, old_)
    {
      if OBJECT_TYPE !in new_ || !new_[OBJECT_TYPE].Str? {
        return None;
      }
      var t := new_[OBJECT_TYPE].s;
      var changed := ChangedProperties(new_, old_);
      if changed == map[] {
        return None;
      }
      var ids := if t in schema.identities then schema.identities[t] else [];
      var id: Mo := map[];
      for i := 0 to |ids|
        invariant id == map p | p in ids[..i] :: if p in new_ then new_[p] else Null
      {
        assert ids[..i + 1] == ids[..i] + [ids[i]];
        id := id[ids[i] := if ids[i] in new_ then new_[ids[i]] else Null];
      }
      assert ids[..|ids|] == ids;
      out := Some(changed + id[OBJECT_TYPE := Str(t)]);
    }

    /** The upserts of a report. */
    method Ingest(ups: seq<Mo>) returns (upserts: seq<Mo>)
      modifies this`relmissing, diffCache
      ensures Flow(diffCache.objects, upserts, relmissing)
           == InventoryModel.Ingest(schema, Flow(old(diffCache.objects), [], old(relmissing)), ups)
    {
      upserts := [];
      ghost var start := Flow(diffCache.objects, [], relmissing);
      for i := 0 to |ups|
        invariant Flow(diffCache.objects, upserts, relmissing) == InventoryModel.Ingest(schema, start, ups[..i])
      {
        assert ups[..i + 1][..i] == ups[..i];
        var inv := ups[i];
        var key := ConstructKey(inv);
        if key == None {
          continue;
        }
        var resolved := RelationsResolve(inv);
        if !resolved {
          relmissing := relmissing + [inv];
          continue;
        }
        var cached := diffCache.Get(key.value);
        if cached.Some? {
          var diff := CalculateDiff(inv, cached.value);
          if diff.Some? {
            diffCache.Put(key.value, inv);
            upserts := upserts + [diff.value];
          }
        } else {
          diffCache.Put(key.value, inv);
          upserts := upserts + [inv];
        }
      }
      assert ups[..|ups|] == ups;
    }

    /** The deletes of a report. */
    method Discard(dels: seq<Mo>) returns (deletes: seq<Mo>)
      modifies diffCache
      ensures (diffCache.objects, deletes) == InventoryModel.Discard(schema, old(diffCache.objects), dels)
    {
      deletes := [];
      for i := 0 to |dels|
        invariant (diffCache.objects, deletes) == InventoryModel.Discard(schema, old(diffCache.objects), dels[..i])
      {
        assert dels[..i + 1][..i] == dels[..i];
        var key := ConstructKey(dels[i]);
        if key == None {
          continue;
        }
        var cached := diffCache.Get(key.value);
        if cached.Some? {
          diffCache.Delete(key.value);
          deletes := deletes + [dels[i]];
        }
      }
      assert dels[..|dels|] == dels;
    }

    /** Some order of an object's properties. */
    method RangeOver(o: Mo) returns (order: seq<string>)
      ensures Lists(order, o.Keys)
    {
      order := Enumerate(o.Keys);
    }

    /** The property loop of the retry for one object: each unresolved relationship writes the
        object at the end of the compacted part of relmissing, the first resolved one caches
        it and ends the loop. */
    method RetryProperties(o: Mo, key: string, still: nat, order: seq<string>)
      returns (next: nat, resolved: bool, overrun: bool)
      requires still <= |relmissing| && forall p :: p in order ==> p in o
      modifies diffCache, this`relmissing
      ensures var (c, hit) := Visit(old(diffCache.objects.Keys), o, order);
              && overrun == (still + c > |old(relmissing)|)
              && (!overrun ==>
                    && resolved == hit && next == still + c
                    && relmissing == Fill(old(relmissing), still, c, o)
                    && diffCache.objects == if hit then old(diffCache.objects)[key := o] else old(diffCache.objects))
    {
      next, resolved, overrun := still, false, false;
      ghost var keys, c := diffCache.objects.Keys, 0;
      for i := 0 to |order|
        invariant next == still + c <= |relmissing| == |old(relmissing)| && diffCache.objects == old(diffCache.objects)
        invariant Visit(keys, o, order[..i]) == (c, false)
        invariant relmissing == Fill(old(relmissing), still, c, o)
      {
        var v := o[order[i]];
        VisitPrefix(keys, o, order, i);
        VisitGrows(keys, o, order, i + 1);
        if IsRelation(v) {
          var found := ResolveValue(v);
          if found {
            diffCache.Put(key, o);
            resolved := true;
            return;
          }
          if next >= |relmissing| {
            overrun := true;
            return;
          }
          FillMore(old(relmissing), still, c, o);
          relmissing := relmissing[next := o];
          next, c := next + 1, c + 1;
        }
      }
      assert order[..|order|] == order;
    }

    /** One pass over relmissing, compacting it in place and appending what resolves to given. */
    method RetryPass(given: seq<Mo>)
        returns (upserts: seq<Mo>, still: nat, overrun: bool, ghost orders: seq<seq<string>>)
      modifies diffCache, this`relmissing
      ensures (!overrun ==> still <= |relmissing|) && |orders| <= |old(relmissing)|
              && (overrun || |orders| == |old(relmissing)|)
      ensures var q := Compaction(old(diffCache.objects), given, old(relmissing), 0, false);
              && Fit(schema, q, orders)
              && var r := VisitAll(schema, q, orders);
                 overrun == r.overrun && (!overrun
                     ==> Compaction(diffCache.objects, upserts, relmissing, still, false) == r)
    {
      upserts, still, overrun, orders := given, 0, false, [];
      ghost var q := Compaction(diffCache.objects, given, relmissing, 0, false);
      ghost var r := q;
      for i := 0 to |relmissing|
        invariant |orders| == i <= |q.buf| == |relmissing| && Fit(schema, q, orders) && r == VisitAll(schema, q, orders)
        invariant r == Compaction(diffCache.objects, upserts, relmissing, still, false)
      {
        var inv := relmissing[i];
        var order := RangeOver(inv);
        VisitNext(schema, q, orders, order);
        orders, r := orders + [order], VisitOne(schema, r, i, order);
        var key := ConstructKey(inv);
        if key == None {
          continue;
        }
        var next, resolved;
        next, resolved, overrun := RetryProperties(inv, key.value, still, order);
        if overrun {
          return;
        }
        if resolved {
          upserts := upserts + [inv];
        }
        still := next;
      }
    }

    /** The distinct types among the parked objects. */
    method CountTypes() returns (uObjects: set<string>)
      ensures uObjects == TypesOf(relmissing)
    {
      uObjects := {};
      for i := 0 to |relmissing|
        invariant uObjects == TypesOf(relmissing[..i])
      {
        assert relmissing[..i + 1] == relmissing[..i] + [relmissing[i]];
        TypesOfAppend(relmissing[..i], relmissing[i]);
        var inv := relmissing[i];
        if OBJECT_TYPE in inv && inv[OBJECT_TYPE].Str? {
          uObjects := uObjects + {inv[OBJECT_TYPE].s};
        }
      }
      assert relmissing[..|relmissing|] == relmissing;
    }

    /** A number of passes over the parked objects, ended early when none is left. */
    method RetryPasses(times: nat, given: seq<Mo>)
      returns (upserts: seq<Mo>, overrun: bool, ghost passes: seq<seq<seq<string>>>)
      modifies diffCache, this`relmissing
      ensures !overrun ==>
                var start := Flow(old(diffCache.objects), given, old(relmissing));
                Ranged(schema, times, start, passes)
                && Passes(schema, times, start, passes) == Some(Flow(diffCache.objects, upserts, relmissing))
      ensures AtMostOne(old(relmissing)) ==> !overrun
      ensures times > 0 && Jammed(schema, old(diffCache.objects.Keys), old(relmissing)) ==> overrun
    {
      hide VisitAll;
      hide Fit;
      hide Passes;
      hide Ranged;
      hide Made;
      hide Jammed;
      hide AtMostOne;
      upserts, overrun, passes := given, false, [];
      ghost var start := Flow(diffCache.objects, given, relmissing);
      MadeNone(schema, times, start);
      var left := times;
      while left > 0
        invariant 0 <= left && !overrun && (left < times ==> passes != [])
        invariant Made(schema, times, start, passes, left, Flow(diffCache.objects, upserts, relmissing))
      {
        ghost var f := Flow(diffCache.objects, upserts, relmissing);
        MadeKeeps(schema, times, start, passes, left, f);
        if |relmissing| == 0 {
          MadeAll(schema, times, start, passes, left, f);
          NoneLeft(schema, times, start, passes, left, f);
          return;
        }
        var still;
        ghost var orders;
        upserts, still, overrun, orders := RetryPass(upserts);
        if overrun {
          OverrunMeansTwo(schema, start, f, orders);
          return;
        }
        relmissing := relmissing[..still];
        MadeMore(schema, times, start, passes, left, f, orders);
        passes := passes + [orders];
        left := left - 1;
      }
      MadeKeeps(schema, times, start, passes, left, Flow(diffCache.objects, upserts, relmissing));
      MadeAll(schema, times, start, passes, left, Flow(diffCache.objects, upserts, relmissing));
    }

    /** Reprocess the parked objects, as many passes as there are distinct types among them,
        appending what resolves to given. Without an overrun the result is that of Reprocess for
        the orders in which the properties were met; there is none while every object has one
        relationship, and there is one when nothing resolves and some object has two. */
    method ReProcessMissingRelations(given: seq<Mo>)
      returns (upserts: seq<Mo>, overrun: bool, ghost passes: seq<seq<seq<string>>>)
      requires Keyed(schema, relmissing)
      modifies diffCache, this`relmissing
      ensures !overrun ==>
                var f := Flow(old(diffCache.objects), given, old(relmissing));
                Ranged(schema, |TypesOf(f.parked)|, f, passes)
                && Reprocess(schema, f, passes) == Some(Flow(diffCache.objects, upserts, relmissing))
      ensures AtMostOne(old(relmissing)) ==> !overrun
      ensures Jammed(schema, old(diffCache.objects.Keys), old(relmissing)) ==> overrun
    {
      hide Passes;
      hide Ranged;
      hide AtMostOne;
      var uObjects := CountTypes();
      if relmissing != [] {
        assert relmissing[0] in relmissing && TypeOf(relmissing[0]).Some?;
        assert TypeOf(relmissing[0]).value in uObjects;
      }
      upserts, overrun, passes := RetryPasses(|uObjects|, given);
    }

    /** Record the keys of a full report's upserts. */
    method RecordKeys(ups: seq<Mo>)
      modifies this`fullInventoryKeys
      ensures fullInventoryKeys == old(fullInventoryKeys) + KeysOf(schema, ups)
    {
      for i := 0 to |ups|
        invariant fullInventoryKeys == old(fullInventoryKeys) + KeysOf(schema, ups[..i])
      {
        assert ups[..i + 1] == ups[..i] + [ups[i]];
        KeysOfAppend(schema, ups[..i], ups[i]);
        var key := ConstructKey(ups[i]);
        if key.Some? {
          fullInventoryKeys := fullInventoryKeys + {key.value};
        }
      }
      assert ups[..|ups|] == ups;
    }

    /** Remove every cached object that was not reported in this cycle. */
    method Sweep(given: seq<Mo>) returns (deletes: seq<Mo>, order: seq<string>)
      modifies diffCache
      ensures Lists(order, old(diffCache.objects.Keys))
      ensures var (c, ds) := InventoryModel.Sweep(old(diffCache.objects), fullInventoryKeys, order);
              diffCache.objects == c && deletes == given + ds
    {
      deletes := given;
      order := diffCache.Keys();
      for i := 0 to |order|
        invariant var (c, ds) := InventoryModel.Sweep(old(diffCache.objects), fullInventoryKeys, order[..i]);
                  diffCache.objects == c && deletes == given + ds
        invariant forall j :: i <= j < |order| ==> order[j] in diffCache.objects
      {
        assert order[..i + 1][..i] == order[..i];
        if order[i] !in fullInventoryKeys {
          var inv := diffCache.Get(order[i]);
          deletes := deletes + [inv.value];
          diffCache.Delete(order[i]);
        }
      }
      assert order[..|order|] == order;
    }

    /** Cut the output of a report into messages. */
    method SendBatches(kind: ReportType, ups: seq<Mo>, dels: seq<Mo>) returns (sent: seq<Message>)
      ensures sent == Batches(kind, sendFull, ups, dels)
    {
      sent := [];
      var upserts := ups;
      ghost var all := Batches(kind, sendFull, ups, dels);
      while true
        invariant sent + Batches(kind, sendFull, upserts, dels) == all
        decreases |upserts|
      {
        ghost var rest := Batches(kind, sendFull, upserts, dels);
        var msgKind := if !sendFull then Incremental else kind;
        var batch;
        if |upserts| > 100 {
          batch, upserts := upserts[..100], upserts[100..];
          msgKind := if sendFull then FullSegment else Incremental;
          assert rest == [Message(msgKind, batch, dels)] + Batches(kind, sendFull, upserts, dels);
        } else {
          batch, upserts := upserts, [];
          assert rest == [Message(msgKind, batch, dels)];
        }
        sent := sent + [Message(msgKind, batch, dels)];
        if |upserts| == 0 {
          break;
        }
      }
    }

    /** Upserts, deletes and retry of one report. */
    method Absorb(rep: Report)
      returns (upserts: seq<Mo>, deletes: seq<Mo>, overrun: bool, ghost passes: seq<seq<seq<string>>>)
      requires Keyed(schema, relmissing)
      modifies this`relmissing, diffCache
      ensures Keyed(schema, relmissing)
      ensures !overrun ==>
                && Retried(schema, old(Now()), Event(rep, passes, []))
                && (Flow(diffCache.objects, upserts, relmissing), deletes)
                   == InventoryModel.Absorb(schema, old(Now()), Event(rep, passes, []))
      ensures AtMostOne(old(relmissing)) && AtMostOne(rep.upserts) ==> !overrun && AtMostOne(relmissing)
    {
      hide Passes;
      hide Ranged;
      overrun, passes := false, [];
      IngestParks(schema, Flow(diffCache.objects, [], relmissing), rep.upserts);
      upserts := Ingest(rep.upserts);
      deletes := Discard(rep.deletes);
      if rep.kind == FullEnd || rep.kind == Incremental {
        upserts, overrun, passes := ReProcessMissingRelations(upserts);
        relmissing := [];
      }
    }

    /** Keys recorded, the sweep at a full end, and the messages of one report. */
    method Conclude(rep: Report, ups: seq<Mo>, dels: seq<Mo>) returns (sent: seq<Message>, order: seq<string>)
      modifies this`fullInventoryKeys, this`sendFull, diffCache
      ensures rep.kind == FullEnd ==> Lists(order, old(diffCache.objects.Keys))
      ensures var out := InventoryModel.Conclude(schema, old(Now()), rep,
              Flow(old(diffCache.objects), ups, relmissing), dels, order);
              Now() == out.state && sent == out.messages
    {
      sent, order := [], [];
      var deletes := dels;
      assert dels + [] == dels;
      if rep.kind == FullStart || rep.kind == FullSegment || rep.kind == FullEnd {
        RecordKeys(rep.upserts);
      }
      if rep.kind == FullEnd {
        deletes, order := Sweep(deletes);
        fullInventoryKeys := {};
      }
      if |ups| > 0 || |deletes| > 0 || (sendFull && (rep.kind == FullEnd || rep.kind == FullStart)) {
        sent := SendBatches(rep.kind, ups, deletes);
        if rep.kind == FullEnd {
          sendFull := false;
        }
      }
    }

    /** One report from the collector: without an overrun of the retry, the new state and the
        messages are those of the model, for the orders that the retry and the sweep met. */
    method ProcessReport(rep: Report)
      returns (sent: seq<Message>, overrun: bool, ghost passes: seq<seq<seq<string>>>, ghost order: seq<string>)
      requires Keyed(schema, relmissing)
      modifies this, diffCache
      ensures Keyed(schema, relmissing)
      ensures !overrun ==>
                var e := Event(rep, passes, order);
                && Possible(schema, old(Now()), e)
                && Now() == Step(schema, old(Now()), e).state
                && sent == Step(schema, old(Now()), e).messages
      ensures AtMostOne(old(relmissing)) && AtMostOne(rep.upserts) ==> !overrun && AtMostOne(relmissing)
    {
      hide Retried;
      var upserts, deletes;
      upserts, deletes, overrun, passes := Absorb(rep);
      if overrun {
        sent, order := [], [];
        return;
      }
      sent, order := Conclude(rep, upserts, deletes);
      PossibleParts(schema, old(Now()), Event(rep, passes, order));
    }

    /** The processing loop over the reports received until the collector closes its channel, or
        until an overrun of the retry ends the program: what was sent is what the model sends on
        the reports processed, and while all objects have at most one relationship property all
        reports are. */
    method ProcessInventory(reports: seq<Report>) returns (sent: seq<Message>, overrun: bool, ghost events: seq<Event>)
      requires Now() == FRESH
      modifies this, diffCache
      ensures Run(schema, FRESH, events) && sent == Sent(schema, FRESH, events)
      ensures ReportsOf(events) <= reports
      ensures !overrun ==> ReportsOf(events) == reports && Now() == After(schema, FRESH, events)
      ensures (forall rep :: rep in reports ==> AtMostOne(rep.upserts)) ==> !overrun
    {
      hide After;
      hide Sent;
      hide Step;
      hide Run;
      hide AtMostOne;
      hide Keyed;
      hide Possible;
      hide ReportsOf;
      RunNone(schema, FRESH);
      NoneParked(schema);
      sent, overrun, events := [], false, [];
      for i := 0 to |reports|
        invariant !overrun && ReportsOf(events) == reports[..i] && Run(schema, FRESH, events)
        invariant Now() == After(schema, FRESH, events) && sent == Sent(schema, FRESH, events)
        invariant Keyed(schema, relmissing)
        invariant (forall rep :: rep in reports ==> AtMostOne(rep.upserts)) ==> AtMostOne(relmissing)
      {
        var batch;
        ghost var passes, order;
        batch, overrun, passes, order := ProcessReport(reports[i]);
        if overrun {
          return;
        }
        RunNext(schema, FRESH, events, Event(reports[i], passes, order));
        PrefixNext(reports, i);
        events := events + [Event(reports[i], passes, order)];
        sent := sent + batch;
      }
      assert reports[..|reports|] == reports;
    }
  }

  lemma MadeNone(schema: Schema, times: nat, start: Flow)
    ensures Made(schema, times, start, [], times, start)
  {
  }

  lemma NoneLeft(schema: Schema, times: nat, start: Flow, passes: seq<seq<seq<string>>>, left: nat, f: Flow)
    requires Made(schema, times, start, passes, left, f) && f.parked == []
    ensures !Jammed(schema, start.cache.Keys, start.parked)
  {
    MadeKeeps(schema, times, start, passes, left, f);
  }

  lemma OverrunMeansTwo(schema: Schema, start: Flow, f: Flow, orders: seq<seq<string>>)
    requires forall o :: o in f.parked ==> o in start.parked
    requires |orders| <= |f.parked| && Fit(schema, Compaction(f.cache, f.out, f.parked, 0, false), orders)
    requires VisitAll(schema, Compaction(f.cache, f.out, f.parked, 0, false), orders).overrun
    ensures !AtMostOne(start.parked)
  {
    if AtMostOne(start.parked) {
      OverrunNeedsTwo(schema, Compaction(f.cache, f.out, f.parked, 0, false), orders);
    }
  }

  /** The retry of the event ranges over properties and stays within its list. */
  ghost predicate Retried(schema: Schema, s: State, e: Event)
  {
    Retries(e.report.kind) ==>
      var g := Digest(schema, s, e.report).0;
      Ranged(schema, |TypesOf(g.parked)|, g, e.passes) && Reprocess(schema, g, e.passes).Some?
  }

  /** The order of the sweep plays no part before it. */
  lemma PossibleParts(schema: Schema, s: State, e: Event)
    requires Retried(schema, s, e.(order := []))
    requires e.report.kind == FullEnd ==> Lists(e.order, InventoryModel.Absorb(schema, s, e.(order := [])).0.cache.Keys)
    ensures Possible(schema, s, e)
            && InventoryModel.Absorb(schema, s, e) == InventoryModel.Absorb(schema, s, e.(order := []))
  {
  }

  lemma RunNone(schema: Schema, s: State)
    ensures Run(schema, s, []) && After(schema, s, []) == s && Sent(schema, s, []) == [] && ReportsOf([]) == []
  {
  }

  lemma NoneParked(schema: Schema)
    ensures AtMostOne([]) && Keyed(schema, [])
  {
  }
}
