/** The collector that feeds the processing loop, and the two composed. */
module InventoryCollector {
  import opened Basics
  import opened InventoryCycle
  import opened InventoryModel
  import opened InventoryReplica
  import opened InventoryStream

  /** Objects createInventory makes per type. */
  const OBJS_PER_TYPE := 100

  function Reported(reps: seq<Report>): seq<Mo>
  {
    if reps == [] then [] else Reported(reps[..|reps| - 1]) + reps[|reps| - 1].upserts
  }

  lemma ReportNext(c: Collector, out: seq<Report>, rep: Report)
    ensures Reported(out + [rep]) == Reported(out) + rep.upserts
    ensures CollectsAll(c, out + [rep]) == Collects(CollectsAll(c, out), rep)
  {
  }

  lemma ReportNone(c: Collector)
    ensures Reported([]) == [] && CollectsAll(c, []) == c
  {
  }

  lemma {:induction false} ReportedConcat(xs: seq<Report>, ys: seq<Report>)
    ensures Reported(xs + ys) == Reported(xs) + Reported(ys)
  {
    if ys == [] {
      assert xs + ys == xs;
    } else {
      var n := |ys| - 1;
      ReportedConcat(xs, ys[..n]);
      ReportNext(Idle, xs + ys[..n], ys[n]);
      ReportNext(Idle, ys[..n], ys[n]);
      hide Reported;
      assert ys[..n] + [ys[n]] == ys && (xs + ys[..n]) + [ys[n]] == xs + ys;
    }
  }

  lemma {:induction false} CollectsConcat(c: Collector, xs: seq<Report>, ys: seq<Report>)
    ensures CollectsAll(c, xs + ys) == CollectsAll(CollectsAll(c, xs), ys)
  {
    if ys == [] {
      assert xs + ys == xs;
    } else {
      var n := |ys| - 1;
      CollectsConcat(c, xs, ys[..n]);
      ReportNext(c, xs + ys[..n], ys[n]);
      ReportNext(CollectsAll(c, xs), ys[..n], ys[n]);
      hide CollectsAll;
      assert ys[..n] + [ys[n]] == ys && (xs + ys[..n]) + [ys[n]] == xs + ys;
    }
  }

  /** The reports for one type's objects. The bound on i is compared with the number of
      types, as in the source; last marks the last type met. */
  method CollectType(objs: seq<Mo>, types: nat, last: bool) returns (out: seq<Report>)
    requires |objs| == OBJS_PER_TYPE
    ensures Reported(out) == objs
    ensures CollectsAll(Collecting, out) == if last then Idle else Collecting
    ensures forall rep :: rep in out ==> rep.deletes == [] && rep.upserts != []
  {
    out := [];
    var i := 0;
    ReportNone(Collecting);
    hide Reported;
    hide CollectsAll;
    while true
      invariant i == 0 || i == 50
      invariant Reported(out) == objs[..i] && CollectsAll(Collecting, out) == Collecting
      invariant forall rep :: rep in out ==> rep.deletes == [] && rep.upserts != []
      decreases |objs| - i
    {
      var ups := if i + 50 < types then objs[i..i + 50] else objs[i..];
      var kind := FullSegment;
      assert objs[..i] + ups == objs[..i + |ups|];
      i := i + |ups|;
      if i >= |objs| - 1 {
        if last {
          kind := FullEnd;
        }
        ReportNext(Collecting, out, Report(ups, [], kind));
        out := out + [Report(ups, [], kind)];
        assert objs[..i] == objs;
        break;
      }
      ReportNext(Collecting, out, Report(ups, [], kind));
      out := out + [Report(ups, [], kind)];
    }
  }

  /** The objects of the types in order. */
  function ObjectsOf(inventory: map<string, seq<Mo>>, order: seq<string>): seq<Mo>
    requires forall t :: t in order ==> t in inventory
  {
    if order == [] then [] else ObjectsOf(inventory, order[..|order| - 1]) + inventory[order[|order| - 1]]
  }

  /** One collection cycle, types met in any order: every object of every type is reported
      exactly once, between one full start and one full end; an empty inventory gets no full end. */
  method CollectInventory(inventory: map<string, seq<Mo>>) returns (out: seq<Report>, order: seq<string>)
    requires forall t :: t in inventory ==> |inventory[t]| == OBJS_PER_TYPE
    ensures Lists(order, inventory.Keys)
    ensures Reported(out) == ObjectsOf(inventory, order)
    ensures CollectsAll(Idle, out) == if inventory == map[] then Collecting else Idle
    ensures |out| >= 1
    ensures inventory != map[] ==> OneCollection(out)
    ensures out[0] == Report([], [], FullStart)
    ensures forall i :: 1 <= i < |out| ==> out[i].deletes == [] && out[i].upserts != []
  {
    out, order := [Report([], [], FullStart)], [];
    ReportNone(Idle);
    ReportNext(Idle, [], out[0]);
    assert [] + [out[0]] == out;
    hide Reported;
    hide CollectsAll;
    var left := inventory.Keys;
    NoneMet(inventory.Keys);
    hide Lists;
    while left != {}
      invariant left <= inventory.Keys && Lists(order, inventory.Keys - left)
      invariant forall t :: t in order ==> t in inventory
      invariant Reported(out) == ObjectsOf(inventory, order)
      invariant CollectsAll(Idle, out) == if left == {} && inventory != map[] then Idle else Collecting
      invariant |out| >= 1 && out[0] == Report([], [], FullStart)
      invariant forall i :: 1 <= i < |out| ==> out[i].deletes == [] && out[i].upserts != []
      decreases left
    {
      var t :| t in left;
      TypeMet(inventory.Keys, left, order, t);
      ObjectsNext(inventory, order, t);
      var j := |order|;
      var reps := CollectType(inventory[t], |inventory|, j == |inventory| - 1);
      order, left := order + [t], left - {t};
      ReportedConcat(out, reps);
      CollectsConcat(Idle, out, reps);
      hide ObjectsOf;
      StillGood(out, reps);
      out := out + reps;
    }
    assert inventory.Keys - {} == inventory.Keys;
  }

  lemma NoneMet(keys: set<string>)
    ensures Lists([], keys - keys)
  {
  }

  /** The last type met is the one after which none is left. */
  lemma TypeMet(keys: set<string>, left: set<string>, order: seq<string>, t: string)
    requires left <= keys && t in left && Lists(order, keys - left)
    ensures Lists(order + [t], keys - (left - {t}))
    ensures |order| == |keys| - 1 <==> left - {t} == {}
    ensures t in keys
  {
    ListsAppend(order, keys - left, t);
    assert keys - (left - {t}) == keys - left + {t};
    ListsLength(order, keys - left);
    assert keys == (keys - left) + left;
    assert |left - {t}| == |left| - 1;
  }

  lemma ObjectsNext(inventory: map<string, seq<Mo>>, order: seq<string>, t: string)
    requires t in inventory && forall x :: x in order ==> x in inventory
    ensures forall x :: x in order + [t] ==> x in inventory
    ensures ObjectsOf(inventory, order + [t]) == ObjectsOf(inventory, order) + inventory[t]
  {
    assert (order + [t])[..|order|] == order;
  }

  lemma StillGood(out: seq<Report>, reps: seq<Report>)
    requires |out| >= 1 && forall i :: 1 <= i < |out| ==> out[i].deletes == [] && out[i].upserts != []
    requires forall rep :: rep in reps ==> rep.deletes == [] && rep.upserts != []
    ensures (out + reps)[0] == out[0]
    ensures forall i :: 1 <= i < |out + reps| ==> (out + reps)[i].deletes == [] && (out + reps)[i].upserts != []
  {
    forall i | |out| <= i < |out + reps|
      ensures (out + reps)[i] in reps
    {
    }
  }

  lemma {:induction false} CyclesCollect(cycles: seq<seq<Report>>)
    requires forall c :: c in cycles ==> CollectsAll(Idle, c) == Idle
    ensures CollectsAll(Idle, Concat(cycles)) == Idle
  {
    if cycles != [] {
      var n := |cycles| - 1;
      CyclesCollect(cycles[..n]);
      CollectsConcat(Idle, Concat(cycles[..n]), cycles[n]);
    }
  }

  lemma {:induction false} AstrayForGood(reps: seq<Report>)
    ensures CollectsAll(Astray, reps) == Astray
  {
    if reps != [] {
      AstrayForGood(reps[..|reps| - 1]);
    }
  }

  lemma NeverAstray(cycles: seq<seq<Report>>, reps: seq<Report>)
    requires forall c :: c in cycles ==> CollectsAll(Idle, c) == Idle
    requires reps <= Concat(cycles)
    ensures CollectsAll(Idle, reps) != Astray
  {
    CyclesCollect(cycles);
    var rest := Concat(cycles)[|reps|..];
    assert Concat(cycles) == reps + rest;
    CollectsConcat(Idle, reps, rest);
    AstrayForGood(rest);
  }

  /** Stopped anywhere in any number of collection cycles, the processing loop has emitted a
      prefix of fullStart fullSegment* fullEnd incremental*. */
  lemma {:induction false} CollectedStreamGrammar(schema: Schema, cycles: seq<seq<Report>>, es: seq<Event>)
    requires forall c :: c in cycles ==> CollectsAll(Idle, c) == Idle
    requires ReportsOf(es) <= Concat(cycles)
    ensures StreamPrefix(Sent(schema, FRESH, es))
  {
    NeverAstray(cycles, ReportsOf(es));
    StreamGrammar(schema, es);
  }

  /** The collector never deletes and only uses the recognised report types, so without nil values
      every run it feeds is admissible. */
  lemma {:induction false} CollectedAdmissible(schema: Schema, es: seq<Event>)
    requires CollectsAll(Idle, ReportsOf(es)) != Astray
    requires forall rep :: rep in ReportsOf(es) ==> rep.deletes == [] && forall o :: o in rep.upserts ==> NoNulls(o)
    ensures AdmissibleRun(schema, FRESH, es)
  {
    hide After;
    hide NoNulls;
    hide Admissible;
    if es != [] {
      var n := |es| - 1;
      LastReport(es);
      CollectedAdmissible(schema, es[..n]);
      hide ReportsOf;
      hide CollectsAll;
      NothingDeleted(schema, After(schema, FRESH, es[..n]), es[n].report);
    }
  }

  lemma {:induction false} LastReport(es: seq<Event>)
    requires es != [] && CollectsAll(Idle, ReportsOf(es)) != Astray
    ensures var n := |es| - 1;
            && es[n].report in ReportsOf(es) && es[n].report.kind != Unrecognised
            && CollectsAll(Idle, ReportsOf(es[..n])) != Astray
            && forall rep :: rep in ReportsOf(es[..n]) ==> rep in ReportsOf(es)
  {
    var n, reps := |es| - 1, ReportsOf(es);
    assert reps == ReportsOf(es[..n]) + [es[n].report];
    assert reps[..n] == ReportsOf(es[..n]) && reps[n] == es[n].report;
  }

  lemma NothingDeleted(schema: Schema, s: State, rep: Report)
    requires rep.kind != Unrecognised && rep.deletes == [] && forall o :: o in rep.upserts ==> NoNulls(o)
    ensures Admissible(schema, s, rep)
  {
    assert KeysOf(schema, rep.deletes) == {};
  }

  /** Stopped anywhere in any number of collection cycles, the cloud's copy agrees with the cache. */
  lemma CollectedReplicaAgreement(schema: Schema, recv: Receiver, cycles: seq<seq<Report>>, es: seq<Event>)
    requires forall c :: c in cycles ==> CollectsAll(Idle, c) == Idle
    requires forall rep :: rep in Concat(cycles) ==> rep.deletes == [] && forall o :: o in rep.upserts ==> NoNulls(o)
    requires ReportsOf(es) <= Concat(cycles) && Run(schema, FRESH, es)
    ensures Mirrors(ReceiveAll(schema, recv, map[], Sent(schema, FRESH, es)), After(schema, FRESH, es).cache)
  {
    hide Mirrors;
    hide Run;
    NeverAstray(cycles, ReportsOf(es));
    forall rep | rep in ReportsOf(es)
      ensures rep in Concat(cycles)
    {
      var i :| 0 <= i < |ReportsOf(es)| && ReportsOf(es)[i] == rep;
      assert Concat(cycles)[i] == rep;
    }
    CollectedAdmissible(schema, es);
    ReplicaAgreement(schema, recv, es);
  }

  // --------------------------------------------------------------- the start

  /** One type's objects; make stands for the random property values. */
  method CreateObjects(t: string, make: (string, nat) -> Mo) returns (objs: seq<Mo>)
    ensures |objs| == OBJS_PER_TYPE && forall i :: 0 <= i < OBJS_PER_TYPE ==> objs[i] == make(t, i)
  {
    objs := [];
    for i := 0 to OBJS_PER_TYPE
      invariant |objs| == i && forall j :: 0 <= j < i ==> objs[j] == make(t, j)
    {
      objs := objs + [make(t, i)];
    }
  }

  /** A stream is refused without object types; otherwise an inventory of 100 objects of each is
      made, and its first collection cycle runs from full start to full end. */
  method StreamDelegate(types: seq<string>, make: (string, nat) -> Mo)
    returns (started: bool, inventory: map<string, seq<Mo>>, out: seq<Report>, order: seq<string>)
    ensures started <==> types != []
    ensures started ==>
              && inventory.Keys == (set t | t in types)
                  && (forall t :: t in inventory ==> |inventory[t]| == OBJS_PER_TYPE)
              && Lists(order, inventory.Keys) && Reported(out) == ObjectsOf(inventory, order)
              && CollectsAll(Idle, out) == Idle
              && (forall rep :: rep in out ==> rep.deletes == [])
  {
    started, inventory, out, order := false, map[], [], [];
    if |types| == 0 {
      return;
    }
    hide CollectsAll;
    hide Reported;
    hide ObjectsOf;
    for i := 0 to |types|
      invariant inventory.Keys == set t | t in types[..i]
      invariant forall t :: t in inventory ==> |inventory[t]| == OBJS_PER_TYPE
    {
      var objs := CreateObjects(types[i], make);
      assert types[..i + 1] == types[..i] + [types[i]];
      inventory := inventory[types[i] := objs];
    }
    assert types[..|types|] == types && types[0] in inventory;
    out, order := CollectInventory(inventory);
    started := true;
  }
}
