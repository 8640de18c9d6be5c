/** What inventory replication computes: object keys, relationship resolution,
    diffs, and the effect of one collector report on the diff cache. */
module InventoryModel {
  import opened Basics
  import Text

  /** A reference to a peer object by type and OData selector. */
  datatype MoRef = MoRef(objectType: string, selector: string)

  /** A property value of an inventoried object. Refs is a collection-valued relationship. */
  datatype Value =
    | Null
    | Float(f: real)
    | Str(s: string)
    | Flag(b: bool)
    | Ref(r: MoRef)
    | Refs(rs: seq<MoRef>)
    | Int(i: int)

  type Mo = map<string, Value>

  /** The diff cache: object key to the object last reported under it. */
  type Cache = map<string, Mo>

  const OBJECT_TYPE := "ObjectType"

  /** identities: object type to its sorted identity fields;
      show: how a property value prints (fmt.Sprint). */
  datatype Schema = Schema(identities: map<string, seq<string>>, show: Value -> string)

  // ---------------------------------------------------------------- keys

  function TypeOf(o: Mo): Option<string>
  {
    if OBJECT_TYPE in o && o[OBJECT_TYPE].Str? then Some(o[OBJECT_TYPE].s) else None
  }

  /** The part of a key that follows the type, or None when an identity field is missing. */
  function FieldKey(schema: Schema, fields: seq<string>, o: Mo): Option<string>
  {
    if fields == [] then Some("")
    else
      var n := |fields| - 1;
      var f := fields[n];
      match FieldKey(schema, fields[..n], o)
      case None => None
      case Some(k) => if f !in o then None else Some(k + ":" + f + "=" + schema.show(o[f]))
  }

  /** The cache key of an object, or None when the code reports an error. */
  function KeyOf(schema: Schema, o: Mo): Option<string>
  {
    match TypeOf(o)
    case None => None
    case Some(t) =>
      if t !in schema.identities then None
      else match FieldKey(schema, schema.identities[t], o)
      case None => None
      case Some(k) => Some("ObjectType=" + t + k)
  }

  /** The keys of a list of objects; objects without a key contribute none. */
  ghost function KeysOf(schema: Schema, os: seq<Mo>): set<string>
  {
    set o | o in os && KeyOf(schema, o).Some? :: KeyOf(schema, o).value
  }

  // ------------------------------------------------------- relationships

  predicate IsRelation(v: Value)
  {
    v.Ref? || v.Refs?
  }

  function RefsIn(v: Value): seq<MoRef>
  {
    match v
    case Ref(r) => [r]
    case Refs(rs) => rs
    case _ => []
  }

  /** The relationship-valued properties of an object. */
  function Relations(o: Mo): set<string>
  {
    set p | p in o && IsRelation(o[p])
  }

  /** The cache key a selector names: "Prop eq 'value'" on the reference's type. */
  function SelectorKey(r: MoRef): Option<string>
  {
    if r.selector == "" then None
    else
      var parts := Text.Split(r.selector, " eq ");
      if |parts| != 2 then None
      else Some("ObjectType=" + r.objectType + ":" + parts[0] + "=" + Text.Trim(parts[1], '\''))
  }

  predicate RefResolves(keys: set<string>, r: MoRef)
  {
    SelectorKey(r).Some? && SelectorKey(r).value in keys
  }

  predicate ValueResolves(keys: set<string>, v: Value)
  {
    forall r :: r in RefsIn(v) ==> RefResolves(keys, r)
  }

  /** Every reference of every relationship of o names a cached key. */
  predicate Resolvable(keys: set<string>, o: Mo)
  {
    forall p :: p in o ==> ValueResolves(keys, o[p])
  }

  // --------------------------------------------------------------- diffs

  /** Whether calculateDiff reports property p with new value v. A property the old
      object lacks reads as nil there, so only a nil value goes unreported. */
  predicate Differs(v: Value, old_: Mo, p: string)
  {
    if v == Null then p in old_ && old_[p] != Null else !(p in old_ && old_[p] == v)
  }

  function Changed(new_: Mo, old_: Mo): Mo
  {
    map p | p in new_ && Differs(new_[p], old_, p) :: new_[p]
  }

  /** The object type and the identity properties of o. */
  function Identity(schema: Schema, t: string, o: Mo): Mo
  {
    var ids := if t in schema.identities then schema.identities[t] else [];
    (map p | p in ids :: if p in o then o[p] else Null)[OBJECT_TYPE := Str(t)]
  }

  function Diff(schema: Schema, new_: Mo, old_: Mo): Option<Mo>
  {
    match TypeOf(new_)
    case None => None
    case Some(t) =>
      var changed := Changed(new_, old_);
      if changed == map[] then None else Some(changed + Identity(schema, t, new_))
  }

  // ----------------------------------------------- effect of one report

  datatype ReportType = FullStart | FullSegment | FullEnd | Incremental | Unrecognised

  datatype Report = Report(upserts: seq<Mo>, deletes: seq<Mo>, kind: ReportType)

  datatype Message = Message(kind: ReportType, upserts: seq<Mo>, deletes: seq<Mo>)

  /** Cache, objects produced for the stream, and objects parked because a relationship
      target is not cached. */
  datatype Flow = Flow(cache: Cache, out: seq<Mo>, parked: seq<Mo>)

  /** One upsert of a report. */
  function IngestOne(schema: Schema, f: Flow, o: Mo): Flow
  {
    match KeyOf(schema, o)
    case None => f
    case Some(k) =>
      if !Resolvable(f.cache.Keys, o) then f.(parked := f.parked + [o])
      else if k !in f.cache then f.(cache := f.cache[k := o], out := f.out + [o])
      else match Diff(schema, o, f.cache[k])
        case None => f
        case Some(d) => f.(cache := f.cache[k := o], out := f.out + [d])
  }

  function Ingest(schema: Schema, f: Flow, os: seq<Mo>): Flow
  {
    if os == [] then f else IngestOne(schema, Ingest(schema, f, os[..|os| - 1]), os[|os| - 1])
  }

  /** The deletes of a report that name a cached key, in order; each is dropped from the cache. */
  function Discard(schema: Schema, c: Cache, os: seq<Mo>): (Cache, seq<Mo>)
  {
    if os == [] then (c, [])
    else
      var n := |os| - 1;
      var (c', ds) := Discard(schema, c, os[..n]);
      match KeyOf(schema, os[n])
      case None => (c', ds)
      case Some(k) => if k in c' then (c' - {k}, ds + [os[n]]) else (c', ds)
  }

  // ------------------------------------------------- the retry of parked objects

  /** The relationships of o met in a given order: how many are unresolved before the first
      resolved one, and whether there is one. */
  function Visit(keys: set<string>, o: Mo, order: seq<string>): (nat, bool)
  {
    if order == [] then (0, false)
    else
      var p := order[|order| - 1];
      var (c, hit) := Visit(keys, o, order[..|order| - 1]);
      if hit || p !in o || !IsRelation(o[p]) then (c, hit)
      else if ValueResolves(keys, o[p]) then (c, true)
      else (c + 1, false)
  }

  /** m after k writes of o from position still on. */
  function Fill(m: seq<Mo>, still: nat, k: nat, o: Mo): (r: seq<Mo>)
    ensures |r| == |m|
  {
    if k == 0 || still + k > |m| then m else Fill(m, still, k - 1, o)[still + k - 1 := o]
  }

  /** A pass in progress: buf is the list being read and overwritten, still the length of its
      compacted part; overrun: a write fell outside the list. */
  datatype Compaction = Compaction(cache: Cache, out: seq<Mo>, buf: seq<Mo>, still: nat, overrun: bool)

  function VisitOne(schema: Schema, q: Compaction, i: nat, order: seq<string>): (r: Compaction)
    requires i < |q.buf| && q.still <= |q.buf|
    ensures |r.buf| == |q.buf| && r.still <= |r.buf|
  {
    var o := q.buf[i];
    match KeyOf(schema, o)
    case None => q
    case Some(k) =>
      var (c, hit) := Visit(q.cache.Keys, o, order);
      if q.still + c > |q.buf| then q.(overrun := true)
      else q.(cache := if hit then q.cache[k := o] else q.cache,
              out := if hit then q.out + [o] else q.out,
              buf := Fill(q.buf, q.still, c, o),
              still := q.still + c)
  }

  /** The first |orders| positions visited, each with its own property order. */
  function VisitAll(schema: Schema, q: Compaction, orders: seq<seq<string>>): (r: Compaction)
    requires |orders| <= |q.buf| && q.still <= |q.buf|
    ensures |r.buf| == |q.buf| && r.still <= |r.buf|
  {
    if orders == [] then q
    else
      var n := |orders| - 1;
      var r := VisitAll(schema, q, orders[..n]);
      if r.overrun then r else VisitOne(schema, r, n, orders[n])
  }

  /** Each order lists the properties of the object visited with it. */
  ghost predicate Fit(schema: Schema, q: Compaction, orders: seq<seq<string>>)
    requires |orders| <= |q.buf| && q.still <= |q.buf|
  {
    orders == [] || (var n := |orders| - 1;
                     Fit(schema, q, orders[..n]) && Lists(orders[n], VisitAll(schema, q, orders[..n]).buf[n].Keys))
  }

  function TypesOf(os: seq<Mo>): set<string>
  {
    set o | o in os && TypeOf(o).Some? :: TypeOf(o).value
  }

  /** One pass over everything parked, overwriting the list while reading it; None when a write
      falls outside the list, which ends the program. */
  function Pass(schema: Schema, f: Flow, orders: seq<seq<string>>): Option<Flow>
  {
    if |orders| != |f.parked| then None
    else
      var r := VisitAll(schema, Compaction(f.cache, f.out, f.parked, 0, false), orders);
      if r.overrun then None else Some(Flow(r.cache, r.out, r.buf[..r.still]))
  }

  /** At most left passes, ended early when nothing is parked. */
  function Passes(schema: Schema, left: nat, f: Flow, passes: seq<seq<seq<string>>>): Option<Flow>
    decreases left
  {
    if left == 0 || f.parked == [] then Some(f)
    else if passes == [] then None
    else match Pass(schema, f, passes[0])
      case None => None
      case Some(g) => Passes(schema, left - 1, g, passes[1..])
  }

  /** Each pass meets the properties of each object in some order. */
  ghost predicate Ranged(schema: Schema, left: nat, f: Flow, passes: seq<seq<seq<string>>>)
    decreases left
  {
    left == 0 || f.parked == [] || passes == [] ||
    (|passes[0]| == |f.parked| && Fit(schema, Compaction(f.cache, f.out, f.parked, 0, false), passes[0]) &&
     (Pass(schema, f, passes[0]).Some? ==> Ranged(schema, left - 1, Pass(schema, f, passes[0]).value, passes[1..])))
  }

  /** The retry: as many passes as there are distinct types among the parked objects. */
  function Reprocess(schema: Schema, f: Flow, passes: seq<seq<seq<string>>>): Option<Flow>
  {
    Passes(schema, |TypesOf(f.parked)|, f, passes)
  }

  /** Sweep of unreported keys; order is the order in which the cache lists its keys. */
  function Sweep(c: Cache, reported: set<string>, order: seq<string>): (Cache, seq<Mo>)
  {
    if order == [] then (c, [])
    else
      var n := |order| - 1;
      var (c', ds) := Sweep(c, reported, order[..n]);
      var k := order[n];
      if k in c' && k !in reported then (c' - {k}, ds + [c'[k]]) else (c', ds)
  }

  /** State of the processing loop between two reports. */
  datatype State = State(cache: Cache, parked: seq<Mo>, reported: set<string>, sendFull: bool)

  const FRESH := State(map[], [], {}, true)

  predicate Retries(kind: ReportType)
  {
    kind == FullEnd || kind == Incremental
  }

  predicate CountsAsReported(kind: ReportType)
  {
    kind == FullStart || kind == FullSegment || kind == FullEnd
  }

  /** Upserts and deletes processed. Second component: the deletes produced. */
  function Digest(schema: Schema, s: State, rep: Report): (Flow, seq<Mo>)
  {
    var f := Ingest(schema, Flow(s.cache, [], s.parked), rep.upserts);
    var (c, ds) := Discard(schema, f.cache, rep.deletes);
    (f.(cache := c), ds)
  }

  /** A report together with the orders in which its retry meets the properties of the parked
      objects, pass by pass, and the order in which its sweep meets the cached keys. */
  datatype Event = Event(report: Report, passes: seq<seq<seq<string>>>, order: seq<string>)

  /** Digested, and parked objects retried: before the sweep. When the retry would write outside
      its list the event is not possible, and the flow is left as it was. */
  function Absorb(schema: Schema, s: State, e: Event): (Flow, seq<Mo>)
  {
    var (g, ds) := Digest(schema, s, e.report);
    if !Retries(e.report.kind) then (g, ds)
    else match Reprocess(schema, g, e.passes)
      case None => (g.(parked := []), ds)
      case Some(h) => (h.(parked := []), ds)
  }

  ghost function ReportedAfter(schema: Schema, s: State, rep: Report): set<string>
  {
    s.reported + if CountsAsReported(rep.kind) then KeysOf(schema, rep.upserts) else {}
  }

  const BATCH := 100

  /** Upserts cut into messages; the deletes ride in every one of them. */
  function Batches(kind: ReportType, sendFull: bool, ups: seq<Mo>, dels: seq<Mo>): seq<Message>
    decreases |ups|
  {
    if |ups| > BATCH then
      [Message(if sendFull then FullSegment else Incremental, ups[..BATCH], dels)]
      + Batches(kind, sendFull, ups[BATCH..], dels)
    else [Message(if sendFull then kind else Incremental, ups, dels)]
  }

  predicate Sends(s: State, kind: ReportType, ups: seq<Mo>, dels: seq<Mo>)
  {
    |ups| > 0 || |dels| > 0 || (s.sendFull && (kind == FullEnd || kind == FullStart))
  }

  /** Everything produced for a report, before it is cut into messages. */
  datatype Outcome = Outcome(state: State, upserts: seq<Mo>, deletes: seq<Mo>, messages: seq<Message>)

  /** Keys recorded, the sweep of a full end, and the messages: what follows Absorb. */
  ghost function Conclude(schema: Schema, s: State, rep: Report, f: Flow, ds: seq<Mo>, order: seq<string>): Outcome
  {
    var reported := ReportedAfter(schema, s, rep);
    var (c, swept) := if rep.kind == FullEnd then Sweep(f.cache, reported, order) else (f.cache, []);
    var dels := ds + swept;
    var sends := Sends(s, rep.kind, f.out, dels);
    Outcome(
      State(c, f.parked, if rep.kind == FullEnd then {} else reported,
            s.sendFull && !(sends && rep.kind == FullEnd)),
      f.out, dels,
      if sends then Batches(rep.kind, s.sendFull, f.out, dels) else [])
  }

  function ReportsOf(es: seq<Event>): (reps: seq<Report>)
    ensures |reps| == |es|
  {
    if es == [] then [] else ReportsOf(es[..|es| - 1]) + [es[|es| - 1].report]
  }

  /** The retry ranges over properties and stays within its list; at a full end, order is a
      listing of the cached keys at the time of the sweep. */
  ghost predicate Possible(schema: Schema, s: State, e: Event)
  {
    && (Retries(e.report.kind) ==>
          var g := Digest(schema, s, e.report).0;
          Ranged(schema, |TypesOf(g.parked)|, g, e.passes) && Reprocess(schema, g, e.passes).Some?)
    && (e.report.kind == FullEnd ==> Lists(e.order, Absorb(schema, s, e).0.cache.Keys))
  }

  ghost function Step(schema: Schema, s: State, e: Event): Outcome
  {
    Conclude(schema, s, e.report, Absorb(schema, s, e).0, Absorb(schema, s, e).1, e.order)
  }

  /** State after a run of events. */
  ghost function After(schema: Schema, s: State, es: seq<Event>): State
  {
    if es == [] then s else Step(schema, After(schema, s, es[..|es| - 1]), es[|es| - 1]).state
  }

  /** Messages sent by a run of events. */
  ghost function Sent(schema: Schema, s: State, es: seq<Event>): seq<Message>
  {
    if es == [] then []
    else
      var n := |es| - 1;
      Sent(schema, s, es[..n]) + Step(schema, After(schema, s, es[..n]), es[n]).messages
  }

  /** Every event of the run can happen where it happens. */
  ghost predicate Run(schema: Schema, s: State, es: seq<Event>)
  {
    es == [] || (var n := |es| - 1;
                 Run(schema, s, es[..n]) && Possible(schema, After(schema, s, es[..n]), es[n]))
  }

  lemma RunNext(schema: Schema, s: State, es: seq<Event>, e: Event)
    requires Run(schema, s, es) && Possible(schema, After(schema, s, es), e)
    ensures Run(schema, s, es + [e]) && ReportsOf(es + [e]) == ReportsOf(es) + [e.report]
    ensures After(schema, s, es + [e]) == Step(schema, After(schema, s, es), e).state
    ensures Sent(schema, s, es + [e]) == Sent(schema, s, es) + Step(schema, After(schema, s, es), e).messages
  {
  }
}
