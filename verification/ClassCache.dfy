/** The cache of the answers to class queries, shared by all emulated devices although each
    device has configurations of its own. */
module ClassCache {
  import opened Basics
  import opened ClassQuery
  import opened Sorting
  import opened XmlStore
  import opened XmlTree

  type Payload = Config

  /** The table and its index by class; by device, what was configured and which names were
      added to a class; and the cached payloads. */
  datatype Db = Db(
    table: Table, classes: map<string, seq<string>>, configs: map<string, Configs>,
    added: map<string, map<string, seq<string>>>, cache: map<string, Payload>)

  function ConfigsOf(db: Db, dev: string): Configs
  {
    if dev in db.configs then db.configs[dev] else map[]
  }

  function DnsOf(db: Db, name: string): seq<string>
  {
    if name in db.classes then db.classes[name] else []
  }

  predicate AddsTo(db: Db, dev: string, name: string)
  {
    dev in db.added && name in db.added[dev]
  }

  function AddedTo(db: Db, dev: string, name: string): seq<string>
  {
    if AddsTo(db, dev, name) then db.added[dev][name] else []
  }

  predicate Distinct(ks: seq<string>)
  {
    forall i, j :: 0 <= i < j < |ks| ==> ks[i] != ks[j]
  }

  /** The index names stored objects of the class, what devices configured fits the table, and
      what they added exists only as their configuration. */
  ghost predicate Sound(db: Db)
  {
    && (forall c :: c in db.classes ==> AllOf(db.table, db.classes[c], c))
    && Keyed(db.table)
    && (forall dev :: dev in db.configs ==> Fits(db.table, db.configs[dev]))
    && (forall dev, name :: dev in db.added && name in db.added[dev] ==>
          Unstored(db.table, ConfigsOf(db, dev), db.added[dev][name]) && Distinct(db.added[dev][name]))
  }

  // ------------------------------------------------------------ class queries

  /** A class query of a device worked out from the table. */
  ghost function Computed(db: Db, dev: string, name: string, hier: bool): Option<Gathering>
    requires Sound(db)
  {
    Gather(db.table, ConfigsOf(db, dev), DnsOf(db, name) + AddedTo(db, dev, name), hier)
  }

  function Rewritten(db: Db, dev: string, conf: Configs): Db
  {
    if dev in db.configs then db.(configs := db.configs[dev := conf]) else db
  }

  /** A class query without the cache: what it leaves behind and its answer. None when it fails. */
  ghost function Fresh(db: Db, dev: string, name: string, hier: bool): Option<(Db, Payload)>
    requires Sound(db)
  {
    match Computed(db, dev, name, hier)
    case None => None
    case Some(g) => Some((Rewritten(db, dev, g.conf), g.out))
  }

  /** The answer for a device that has configured nothing, without children. */
  ghost function Plain(db: Db, name: string): Payload
    requires Sound(db)
  {
    Grouped(name, Objs(db.table, map[], DnsOf(db, name), false))
  }

  // ------------------------------------------------------------------ the cache

  /** The device has configured a name of the class. */
  predicate Touches(db: Db, dev: string, name: string)
  {
    exists dn :: dn in DnsOf(db, name) && dn in ConfigsOf(db, dev)
  }

  function Hit(db: Db, dev: string, name: string): Option<Payload>
  {
    if name !in db.cache || AddsTo(db, dev, name) || Touches(db, dev, name) then None else Some(db.cache[name])
  }

  /** The guard before storing a payload: as the source has it, it looks at a device's
      configurations only when the device has added names to some class; as its counterpart
      before a look-up has it, it always does. */
  datatype Guard = AsWritten | AsBeforeLookup

  /** Whether the cache refuses a payload computed for the device. */
  predicate Refuses(db: Db, guard: Guard, dev: string, name: string)
  {
    AddsTo(db, dev, name) || ((dev in db.added || guard.AsBeforeLookup?) && Touches(db, dev, name))
  }

  function Insert(db: Db, guard: Guard, dev: string, name: string, b: Payload): Db
  {
    if Refuses(db, guard, dev, name) then db else db.(cache := db.cache[name := b])
  }

  /** A class query: hierarchical ones bypass the cache on the way in, but not on the way out. */
  ghost function Query(db: Db, guard: Guard, dev: string, name: string, hier: bool): Option<(Db, Payload)>
    requires Sound(db)
  {
    if !hier && Hit(db, dev, name).Some? then Some((db, Hit(db, dev, name).value))
    else
      match Fresh(db, dev, name, hier)
      case None => None
      case Some((d, b)) => Some((Insert(d, guard, dev, name, b), b))
  }

  // ---------------------------------------------------------- configurations

  function Configured(conf: Configs, dn: string, in_: Config): Configs
  {
    conf[dn := if dn in conf then conf[dn] + in_ else in_]
  }

  function Write(db: Db, dev: string, dn: string, in_: Config): Db
  {
    db.(configs := db.configs[dev := Configured(ConfigsOf(db, dev), dn, in_)])
  }

  /** The device sees an object with the dn. */
  predicate Exists(db: Db, dev: string, dn: string)
  {
    dn in db.table || Live(ConfigsOf(db, dev), dn)
  }

  function WithAdded(db: Db, dev: string, name: string, dn: string): Db
  {
    var mine := if dev in db.added then db.added[dev] else map[];
    db.(added := db.added[dev := mine[name := AddedTo(db, dev, name) + [dn]]])
  }

  /** A new object of the device: configured, and recorded under its class. */
  function Add(db: Db, dev: string, name: string, dn: string, attrs: map<string, string>): Db
  {
    WithAdded(Write(db, dev, dn, map[name := [Obj(Entry(name, attrs), [])]]), dev, name, dn)
  }

  // ------------------------------------------------------ hits and recomputation

  /** Every cached payload is the one for a device without configurations. */
  ghost predicate Valid(db: Db)
    requires Sound(db)
  {
    forall c :: c in db.cache ==> db.cache[c] == Plain(db, c)
  }

  /** The device's configurations change no object of the class and nest nothing in one, and the
      objects have no children when they are asked for. */
  ghost predicate Clean(db: Db, dev: string, name: string, hier: bool)
    requires Sound(db)
  {
    Unmarked(db.table, ConfigsOf(db, dev), DnsOf(db, name), hier)
  }

  ghost predicate UnmarkedAt(t: Table, conf: Configs, dn: string, hier: bool)
    requires Fits(t, conf) && dn in t
  {
    Shown(t, conf, dn) == t[dn] && Given(t, conf, dn) == [] && (hier ==> Below(t, dn) == {})
  }

  ghost predicate Unmarked(t: Table, conf: Configs, dns: seq<string>, hier: bool)
    requires Fits(t, conf) && forall i :: 0 <= i < |dns| ==> dns[i] in t
  {
    forall i :: 0 <= i < |dns| ==> UnmarkedAt(t, conf, dns[i], hier)
  }

  lemma StoredIff(t: Table, conf: Configs, dn: string, hier: bool)
    requires Fits(t, conf) && dn in t
    ensures StoredObj(t, conf, dn, hier) == StoredObj(t, map[], dn, false)
            <==> UnmarkedAt(t, conf, dn, hier)
  {
    if hier {
      AllResolved(t, conf, dn, Ordered(Below(t, dn)));
      NoneOrdered(Below(t, dn));
    }
  }

  lemma NoneOrdered(s: set<string>)
    ensures Ordered(s) == [] <==> s == {}
  {
    if x :| x in s {
      assert x in Ordered(s);
    }
  }

  lemma {:induction false} ObjsIff(t: Table, conf: Configs, dns: seq<string>, hier: bool)
    requires Fits(t, conf) && forall i :: 0 <= i < |dns| ==> dns[i] in t
    ensures Objs(t, conf, dns, hier) == Objs(t, map[], dns, false) <==> Unmarked(t, conf, dns, hier)
  {
    if dns != [] {
      var n := |dns| - 1;
      ObjsIff(t, conf, dns[..n], hier);
      StoredIff(t, conf, dns[n], hier);
      LastOne(Objs(t, conf, dns[..n], hier), StoredObj(t, conf, dns[n], hier),
              Objs(t, map[], dns[..n], false), StoredObj(t, map[], dns[n], false));
    }
  }

  lemma LastOne<T>(a: seq<T>, x: T, b: seq<T>, y: T)
    ensures a + [x] == b + [y] <==> a == b && x == y
  {
    if a + [x] == b + [y] {
      assert a == (a + [x])[..|a|] && b == (b + [y])[..|b|];
      assert x == (a + [x])[|a|] && y == (b + [y])[|b|];
    }
  }

  lemma GroupedIff(name: string, a: seq<Obj>, b: seq<Obj>)
    requires |a| == |b|
    ensures Grouped(name, a) == Grouped(name, b) <==> a == b
  {
    if Grouped(name, a) == Grouped(name, b) && a != [] {
      assert map[name := a][name] == map[name := b][name];
    }
  }

  /** A device that added nothing to a class leaves everything as it is, and gets the plain
      answer exactly when nothing of its own shows. */
  lemma FreshPlainIff(db: Db, dev: string, name: string, hier: bool)
    requires Sound(db) && !AddsTo(db, dev, name)
    ensures Fresh(db, dev, name, hier)
         == Some((db, Grouped(name, Objs(db.table, ConfigsOf(db, dev), DnsOf(db, name), hier))))
    ensures Fresh(db, dev, name, hier).value.1 == Plain(db, name) <==> Clean(db, dev, name, hier)
  {
    var t, conf, dns := db.table, ConfigsOf(db, dev), DnsOf(db, name);
    assert dns + [] == dns;
    GatherStored(t, conf, dns, name, hier);
    assert dev in db.configs ==> db.configs[dev := conf] == db.configs;
    ObjsIff(t, conf, dns, hier);
    GroupedIff(name, Objs(t, conf, dns, hier), Objs(t, map[], dns, false));
  }

  /** With a valid cache a hit is what the device's own query would compute, and that would
      have changed nothing. */
  lemma HitIsRecomputation(db: Db, dev: string, name: string)
    requires Sound(db) && Valid(db) && Hit(db, dev, name).Some?
    ensures Fresh(db, dev, name, false) == Some((db, Hit(db, dev, name).value))
  {
    FreshPlainIff(db, dev, name, false);
    UntouchedIsClean(db, dev, name);
  }

  /** Not touching a class is enough for a plain answer without anything of the device's own. */
  lemma UntouchedIsClean(db: Db, dev: string, name: string)
    requires Sound(db) && !Touches(db, dev, name)
    ensures Clean(db, dev, name, false)
  {
    var dns := DnsOf(db, name);
    forall i | 0 <= i < |dns|
      ensures UnmarkedAt(db.table, ConfigsOf(db, dev), dns[i], false)
    {
      assert dns[i] in DnsOf(db, name);
    }
  }

  /** What does not change the table or the index keeps the plain answers. */
  lemma PlainSame(db: Db, d: Db, name: string)
    requires Sound(db) && Sound(d) && d.table == db.table && d.classes == db.classes
    ensures Plain(d, name) == Plain(db, name)
  {
  }

  lemma CachedSound(db: Db, cache: map<string, Payload>)
    requires Sound(db)
    ensures Sound(db.(cache := cache))
  {
    var d := db.(cache := cache);
    assert forall dev :: ConfigsOf(d, dev) == ConfigsOf(db, dev);
  }

  lemma CachedValidIff(db: Db, name: string, b: Payload)
    requires Sound(db) && Valid(db)
    ensures var d := db.(cache := db.cache[name := b]);
            && Sound(d)
            && (Valid(d) <==> b == Plain(db, name))
  {
    var d := db.(cache := db.cache[name := b]);
    CachedSound(db, d.cache);
    hide Sound;
    hide Plain;
    forall c
      ensures Plain(d, c) == Plain(db, c)
    {
      PlainSame(db, d, c);
    }
    assert d.cache[name] == b;
  }

  /** A query keeps the cache valid exactly when it is answered from it, its payload is refused,
      or neither configurations nor children show in it. */
  lemma QueryKeepsValidIff(db: Db, guard: Guard, dev: string, name: string, hier: bool)
    requires Sound(db) && Valid(db) && Query(db, guard, dev, name, hier).Some?
    ensures var d := Query(db, guard, dev, name, hier).value.0;
            && Sound(d)
            && (Valid(d) <==>
                (!hier && Hit(db, dev, name).Some?) || Refuses(db, guard, dev, name) || Clean(db, dev, name, hier))
  {
    hide Clean;
    hide Valid;
    hide Sound;
    hide Computed;
    hide Fresh;
    hide Plain;
    hide Touches;
    if !hier && Hit(db, dev, name).Some? {
    } else if AddsTo(db, dev, name) {
      var (d, b) := Fresh(db, dev, name, hier).value;
      FreshSound(db, dev, name, hier);
      assert Refuses(db, guard, dev, name);
    } else {
      FreshPlainIff(db, dev, name, hier);
      CachedValidIff(db, name, Fresh(db, dev, name, hier).value.1);
    }
  }

  /** No object of the class that exists only as a configuration of the device gets children or
      has others appended to it: the class has stored objects or at most one added one, and
      added ones have nothing below them when children are asked for. */
  ghost predicate Harmless(db: Db, dev: string, name: string, hier: bool)
    requires Sound(db)
  {
    Quiet(db.table, ConfigsOf(db, dev), DnsOf(db, name), AddedTo(db, dev, name), hier)
  }

  lemma ComputedGrows(db: Db, dev: string, name: string, hier: bool)
    requires Sound(db) && Computed(db, dev, name, hier).Some?
    ensures var conf := Computed(db, dev, name, hier).value.conf;
            && Fits(db.table, conf)
            && Grown(ConfigsOf(db, dev), conf)
            && (conf == ConfigsOf(db, dev) <==> Harmless(db, dev, name, hier))
  {
    var conf, adds := ConfigsOf(db, dev), AddedTo(db, dev, name);
    GatherGrows(db.table, conf, DnsOf(db, name), adds, name, hier);
    hide Richer;
    if !Harmless(db, dev, name, hier) {
      RicherDiffers(conf, Computed(db, dev, name, hier).value.conf);
    }
  }

  /** Answering from the table changes no more than configurations, and those fit as before. */
  lemma FreshSound(db: Db, dev: string, name: string, hier: bool)
    requires Sound(db) && Fresh(db, dev, name, hier).Some?
    ensures var d := Fresh(db, dev, name, hier).value.0;
            && d == db.(configs := d.configs)
            && Sound(d)
            && (Valid(db) <==> Valid(d))
  {
    ComputedGrows(db, dev, name, hier);
    hide Computed;
    hide Grown;
    hide Harmless;
    var d := Rewritten(db, dev, Computed(db, dev, name, hier).value.conf);
    RewrittenSound(db, dev, Computed(db, dev, name, hier).value.conf);
    hide Sound;
    hide Plain;
    hide Fits;
    forall c
      ensures Plain(d, c) == Plain(db, c)
    {
      PlainSame(db, d, c);
    }
  }

  lemma RewrittenSound(db: Db, dev: string, conf: Configs)
    requires Sound(db) && Fits(db.table, conf) && Grown(ConfigsOf(db, dev), conf)
    ensures Sound(Rewritten(db, dev, conf))
  {
    var d := Rewritten(db, dev, conf);
    forall x, c | x in d.added && c in d.added[x]
      ensures Unstored(d.table, ConfigsOf(d, x), d.added[x][c]) && Distinct(d.added[x][c])
    {
      if x == dev {
        GrownUnstored(db.table, ConfigsOf(db, dev), conf, db.added[x][c]);
        assert dev in db.configs || conf == map[];
      }
    }
  }

  lemma GrownUnstored(t: Table, a: Configs, b: Configs, adds: seq<string>)
    requires Grown(a, b) && Unstored(t, a, adds)
    ensures Unstored(t, b, adds)
  {
    forall i | 0 <= i < |adds|
      ensures Live(b, adds[i])
    {
      assert GrownAt(a[adds[i]], b[adds[i]]) && a[adds[i]].Keys != {};
    }
  }

  /** A query leaves all configurations as they were exactly when it is answered from the
      cache or is harmless. */
  lemma QueryLeavesConfigsIff(db: Db, guard: Guard, dev: string, name: string, hier: bool)
    requires Sound(db) && Query(db, guard, dev, name, hier).Some?
    ensures Query(db, guard, dev, name, hier).value.0.configs == db.configs
            <==> (!hier && Hit(db, dev, name).Some?) || Harmless(db, dev, name, hier)
  {
    hide Harmless;
    hide Sound;
    hide Fresh;
    if hier || Hit(db, dev, name).None? {
      FreshLeavesIff(db, dev, name, hier);
    }
  }

  lemma FreshLeavesIff(db: Db, dev: string, name: string, hier: bool)
    requires Sound(db) && Fresh(db, dev, name, hier).Some?
    ensures Fresh(db, dev, name, hier).value.0.configs == db.configs <==> Harmless(db, dev, name, hier)
  {
    ComputedGrows(db, dev, name, hier);
    hide Harmless;
    hide Sound;
    hide Computed;
    hide Fits;
    RewrittenIff(db, dev, Computed(db, dev, name, hier).value.conf);
  }

  lemma RewrittenIff(db: Db, dev: string, conf: Configs)
    requires Grown(ConfigsOf(db, dev), conf)
    ensures Rewritten(db, dev, conf).configs == db.configs <==> conf == ConfigsOf(db, dev)
  {
    if dev in db.configs {
      assert Rewritten(db, dev, conf).configs[dev] == conf;
      assert db.configs[dev := db.configs[dev]] == db.configs;
    } else {
      assert conf.Keys == {};
    }
  }

  // ------------------------------------------------------------------ whole runs

  datatype Event =
    | Written(dev: string, dn: string, in_: Config)
    | Imported(dev: string, name: string, dn: string, attrs: map<string, string>)
    | Queried(dev: string, name: string, hier: bool)
    | Cleared

  /** No nil configuration is written over, and one written to a stored object is for its
      class, or completes one that is, and gives it no other dn. */
  ghost predicate Apt(db: Db, e: Event)
  {
    match e
    case Written(dev, dn, in_) =>
      && (dn in ConfigsOf(db, dev) && !Live(ConfigsOf(db, dev), dn) ==> in_ == map[])
      && (dn in db.table ==>
            var c := db.table[dn].name;
            && (c in in_ ==> Overlay(dn, in_[c]))
            && (in_ == map[] || c in in_ || Live(ConfigsOf(db, dev), dn)))
    case Imported(dev, name, dn, attrs) => Exists(db, dev, dn) || dn !in ConfigsOf(db, dev)
    case _ => true
  }

  /** None when the event does not fit the objects it configures, or the query fails. */
  ghost function Step(db: Db, guard: Guard, e: Event): Option<Db>
    requires Sound(db)
  {
    if !Apt(db, e) then None
    else
      match e
      case Written(dev, dn, in_) => Some(Write(db, dev, dn, in_))
      case Imported(dev, name, dn, attrs) => Some(if Exists(db, dev, dn) then db else Add(db, dev, name, dn, attrs))
      case Queried(dev, name, hier) =>
        (match Query(db, guard, dev, name, hier) case None => None case Some((d, b)) => Some(d))
      case Cleared => Some(db.(cache := map[]))
  }

  lemma WriteSound(db: Db, dev: string, dn: string, in_: Config)
    requires Sound(db) && Apt(db, Written(dev, dn, in_))
    ensures Sound(Write(db, dev, dn, in_))
  {
    var conf := ConfigsOf(db, dev);
    var d := Write(db, dev, dn, in_);
    assert Fits(db.table, conf);
    WrittenFits(db.table, conf, dn, in_);
    forall x, c | x in d.added && c in d.added[x]
      ensures Unstored(d.table, ConfigsOf(d, x), d.added[x][c]) && Distinct(d.added[x][c])
    {
      if x == dev {
        WrittenUnstored(db.table, conf, dn, in_, db.added[x][c]);
      }
    }
  }

  lemma WrittenFits(t: Table, conf: Configs, dn: string, in_: Config)
    requires Fits(t, conf)
    requires dn in t ==>
               && (t[dn].name in in_ ==> Overlay(dn, in_[t[dn].name]))
               && (in_ == map[] || t[dn].name in in_ || Live(conf, dn))
    ensures Fits(t, Configured(conf, dn, in_))
  {
    assert conf[dn := map[]][dn] + in_ == in_;
    if dn in conf { assert conf[dn] == map[] ==> conf[dn] + in_ == in_; }
  }

  lemma WrittenUnstored(t: Table, conf: Configs, dn: string, in_: Config, adds: seq<string>)
    requires Unstored(t, conf, adds)
    ensures Unstored(t, Configured(conf, dn, in_), adds)
  {
    if Live(conf, dn) {
      assert conf[dn].Keys != {} && conf[dn].Keys <= (conf[dn] + in_).Keys;
    }
  }

  lemma AddSound(db: Db, dev: string, name: string, dn: string, attrs: map<string, string>)
    requires Sound(db) && !Exists(db, dev, dn) && dn !in ConfigsOf(db, dev)
    ensures Sound(Add(db, dev, name, dn, attrs))
  {
    var in_ := map[name := [Obj(Entry(name, attrs), [])]];
    assert name in in_;
    var d := Write(db, dev, dn, in_);
    WriteSound(db, dev, dn, in_);
    assert AddedTo(d, dev, name) == AddedTo(db, dev, name);
    AddedSound(d, dev, name, dn);
  }

  lemma AddedSound(db: Db, dev: string, name: string, dn: string)
    requires Sound(db) && dn !in db.table && Live(ConfigsOf(db, dev), dn) && dn !in AddedTo(db, dev, name)
    ensures Sound(WithAdded(db, dev, name, dn))
  {
    hide Fits;
    hide Keyed;
    hide AllOf;
    var d := WithAdded(db, dev, name, dn);
    forall x, c | x in d.added && c in d.added[x]
      ensures Unstored(d.table, ConfigsOf(d, x), d.added[x][c]) && Distinct(d.added[x][c])
    {
    }
  }

  lemma QuerySound(db: Db, guard: Guard, dev: string, name: string, hier: bool)
    requires Sound(db) && Query(db, guard, dev, name, hier).Some?
    ensures Sound(Query(db, guard, dev, name, hier).value.0)
  {
    hide Sound;
    hide Fresh;
    hide Refuses;
    if hier || Hit(db, dev, name).None? {
      FreshSound(db, dev, name, hier);
      var (d, b) := Fresh(db, dev, name, hier).value;
      CachedSound(d, d.cache[name := b]);
    }
  }

  lemma StepSound(db: Db, guard: Guard, e: Event)
    requires Sound(db) && Step(db, guard, e).Some?
    ensures Sound(Step(db, guard, e).value)
  {
    hide Sound;
    hide Query;
    hide Write;
    hide Add;
    match e
    case Written(dev, dn, in_) => WriteSound(db, dev, dn, in_);
    case Imported(dev, name, dn, attrs) => if !Exists(db, dev, dn) { AddSound(db, dev, name, dn, attrs); }
    case Queried(dev, name, hier) => QuerySound(db, guard, dev, name, hier);
    case Cleared => CachedSound(db, map[]);
  }

  /** State after a run; None when an event does not fit or a query fails. */
  ghost function After(db: Db, guard: Guard, es: seq<Event>): (r: Option<Db>)
    requires Sound(db)
    ensures r.Some? ==> Sound(r.value)
  {
    if es == [] then Some(db)
    else
      var n := |es| - 1;
      match After(db, guard, es[..n])
      case None => None
      case Some(d) => (if Step(d, guard, es[n]).Some? then StepSound(d, guard, es[n]); Step(d, guard, es[n]) else None)
  }

  /** The query is answered from the cache, its payload is refused, or it shows neither
      configurations nor children. */
  ghost predicate KeepsCache(db: Db, guard: Guard, dev: string, name: string, hier: bool)
    requires Sound(db)
  {
    (!hier && Hit(db, dev, name).Some?) || Refuses(db, guard, dev, name) || Clean(db, dev, name, hier)
  }

  /** Every query of the run is such a one. */
  ghost predicate Disciplined(db: Db, guard: Guard, es: seq<Event>)
    requires Sound(db)
  {
    es == [] ||
    (var n := |es| - 1;
     && Disciplined(db, guard, es[..n])
     && (es[n].Queried? && After(db, guard, es[..n]).Some? ==>
           KeepsCache(After(db, guard, es[..n]).value, guard, es[n].dev, es[n].name, es[n].hier)))
  }

  lemma {:induction false} RunStaysValid(db: Db, guard: Guard, es: seq<Event>)
    requires Sound(db) && Valid(db) && After(db, guard, es).Some? && Disciplined(db, guard, es)
    ensures Valid(After(db, guard, es).value)
  {
    if es != [] {
      var n := |es| - 1;
      RunStaysValid(db, guard, es[..n]);
      StepStaysValid(After(db, guard, es[..n]).value, guard, es[n]);
    }
  }

  lemma StepStaysValid(d: Db, guard: Guard, e: Event)
    requires Sound(d) && Valid(d) && Step(d, guard, e).Some?
    requires e.Queried? ==> KeepsCache(d, guard, e.dev, e.name, e.hier)
    ensures Sound(Step(d, guard, e).value) && Valid(Step(d, guard, e).value)
  {
    StepSound(d, guard, e);
    hide Sound;
    hide Valid;
    hide Query;
    hide Apt;
    hide Exists;
    hide Hit;
    hide Refuses;
    hide Clean;
    hide AddedTo;
    hide Configured;
    if e.Queried? {
      QueryKeepsValidIff(d, guard, e.dev, e.name, e.hier);
    } else {
      SameIndex(d, Step(d, guard, e).value);
    }
  }

  lemma SameIndex(db: Db, d: Db)
    requires Sound(db) && Sound(d) && d.table == db.table && d.classes == db.classes
    requires Valid(db) && forall c :: c in d.cache ==> c in db.cache && d.cache[c] == db.cache[c]
    ensures Valid(d)
  {
    hide Sound;
    hide Plain;
    forall c
      ensures Plain(d, c) == Plain(db, c)
    {
      PlainSame(db, d, c);
    }
  }

  /** A query gives the answer worked out from the table, and leaves everything but the cache
      as working it out does. */
  ghost predicate Refines(db: Db, guard: Guard, dev: string, name: string)
    requires Sound(db)
  {
    match Fresh(db, dev, name, false)
    case None => Query(db, guard, dev, name, false) == None
    case Some((f, b)) =>
      match Query(db, guard, dev, name, false)
      case None => false
      case Some((q, a)) => a == b && q == f.(cache := q.cache)
  }

  /** After any such run of configurations, additions, queries and clearings by any devices,
      every query without children is as good as one worked out from the table. */
  lemma {:induction false} QueriesRefineRecomputation(db: Db, guard: Guard, es: seq<Event>, dev: string, name: string)
    requires Sound(db) && db.cache == map[] && After(db, guard, es).Some? && Disciplined(db, guard, es)
    ensures Refines(After(db, guard, es).value, guard, dev, name)
  {
    RunStaysValid(db, guard, es);
    ValidRefines(After(db, guard, es).value, guard, dev, name);
  }

  lemma ValidRefines(db: Db, guard: Guard, dev: string, name: string)
    requires Sound(db) && Valid(db)
    ensures Refines(db, guard, dev, name)
  {
    if Hit(db, dev, name).Some? {
      HitIsRecomputation(db, dev, name);
    }
    hide Fresh;
    hide Sound;
    hide Valid;
  }

  /** With the guard before storing as it is before a look-up, every run without hierarchical
      queries is disciplined. */
  lemma {:induction false} RepairedGuard(db: Db, es: seq<Event>)
    requires Sound(db) && forall i :: 0 <= i < |es| && es[i].Queried? ==> !es[i].hier
    ensures Disciplined(db, AsBeforeLookup, es)
  {
    if es != [] {
      var n := |es| - 1;
      RepairedGuard(db, es[..n]);
      if es[n].Queried? && After(db, AsBeforeLookup, es[..n]).Some? {
        var d := After(db, AsBeforeLookup, es[..n]).value;
        if !Touches(d, es[n].dev, es[n].name) {
          UntouchedIsClean(d, es[n].dev, es[n].name);
        }
      }
    }
  }

  /** Without the discipline it fails: a payload that shows configurations or children and is
      not refused is what a device without any of its own then gets. */
  lemma PoisonedHit(db: Db, guard: Guard, dev: string, other: string, name: string, hier: bool)
    requires Sound(db) && Valid(db) && !KeepsCache(db, guard, dev, name, hier)
    requires other !in db.configs && other !in db.added
    ensures Query(db, guard, dev, name, hier).Some?
    ensures var d := Query(db, guard, dev, name, hier).value.0;
            Sound(d) && !Refines(d, guard, other, name)
  {
    hide Clean;
    hide Computed;
    hide Fresh;
    hide Plain;
    hide Valid;
    FreshPlainIff(db, dev, name, hier);
    var b := Fresh(db, dev, name, hier).value.1;
    CachedValidIff(db, name, b);
    var d := db.(cache := db.cache[name := b]);
    FreshPlainIff(d, other, name, false);
    PlainSame(db, d, name);
    UntouchedIsClean(d, other, name);
  }

  /** The answer of a query is served to the device again, for plain queries of the class, exactly
      when the device neither added to the class nor configured one of its names. What a device
      that added to the class is answered is never kept, nor is what one that added to any class
      and configured a name of this one is. */
  lemma RepeatHitsIff(db: Db, guard: Guard, dev: string, name: string, hier: bool)
    requires Sound(db) && Query(db, guard, dev, name, hier).Some?
    ensures var (d, b) := Query(db, guard, dev, name, hier).value;
            && (Hit(d, dev, name) == Some(b) <==> !AddsTo(db, dev, name) && !Touches(db, dev, name))
            && (AddsTo(db, dev, name) || (dev in db.added && Touches(db, dev, name)) ==> d.cache == db.cache)
  {
    hide Clean;
    hide Sound;
    hide Computed;
    hide Fresh;
    hide Plain;
    hide Touches;
    if !hier && Hit(db, dev, name).Some? {
    } else if AddsTo(db, dev, name) {
      FreshSound(db, dev, name, hier);
    } else {
      FreshPlainIff(db, dev, name, hier);
      CacheSeesSame(db, db.cache[name := Fresh(db, dev, name, hier).value.1], dev, name);
    }
  }

  lemma CacheSeesSame(db: Db, cache: map<string, Payload>, dev: string, name: string)
    ensures Touches(db.(cache := cache), dev, name) <==> Touches(db, dev, name)
  {
    assert DnsOf(db.(cache := cache), name) == DnsOf(db, name);
    assert ConfigsOf(db.(cache := cache), dev) == ConfigsOf(db, dev);
  }

  // ------------------------------------------------ queries that leave no trace

  /** Every query of the run is answered from the cache or harmless. */
  ghost predicate Undisturbed(db: Db, guard: Guard, es: seq<Event>)
    requires Sound(db)
  {
    es == [] ||
    (var n := |es| - 1;
     && Undisturbed(db, guard, es[..n])
     && (es[n].Queried? && After(db, guard, es[..n]).Some? ==>
           var d := After(db, guard, es[..n]).value;
           (!es[n].hier && Hit(d, es[n].dev, es[n].name).Some?) || Harmless(d, es[n].dev, es[n].name, es[n].hier)))
  }

  /** The events of a run that are configurations or additions. */
  function Changes(es: seq<Event>): seq<Event>
  {
    if es == [] then []
    else
      var n := |es| - 1;
      Changes(es[..n]) + (if es[n].Written? || es[n].Imported? then [es[n]] else [])
  }

  lemma ChangeIgnoresCache(db: Db, guard: Guard, e: Event, cache: map<string, Payload>)
    requires Sound(db) && (e.Written? || e.Imported?)
    ensures Sound(db.(cache := cache))
    ensures Step(db, guard, e).Some? ==>
              Step(db.(cache := cache), guard, e) == Some(Step(db, guard, e).value.(cache := cache))
  {
    CachedSound(db, cache);
    hide Sound;
    hide Overlay;
    hide Query;
    var d := db.(cache := cache);
    assert ConfigsOf(d, e.dev) == ConfigsOf(db, e.dev);
    assert Apt(d, e) == Apt(db, e);
    hide Apt;
    if e.Imported? {
      assert AddedTo(d, e.dev, e.name) == AddedTo(db, e.dev, e.name);
      assert Exists(d, e.dev, e.dn) == Exists(db, e.dev, e.dn);
      hide Exists;
      hide AddedTo;
    }
  }

  lemma QuietStep(db: Db, guard: Guard, e: Event)
    requires Sound(db) && !e.Written? && !e.Imported? && Step(db, guard, e).Some?
    requires e.Queried? ==> (!e.hier && Hit(db, e.dev, e.name).Some?) || Harmless(db, e.dev, e.name, e.hier)
    ensures Step(db, guard, e).value == db.(cache := Step(db, guard, e).value.cache)
  {
    hide Sound;
    hide Query;
    hide Harmless;
    if e.Queried? {
      QuietQuery(db, guard, e.dev, e.name, e.hier);
    }
  }

  lemma QuietQuery(db: Db, guard: Guard, dev: string, name: string, hier: bool)
    requires Sound(db) && Query(db, guard, dev, name, hier).Some?
    requires (!hier && Hit(db, dev, name).Some?) || Harmless(db, dev, name, hier)
    ensures var d := Query(db, guard, dev, name, hier).value.0; d == db.(cache := d.cache)
  {
    QueryLeavesConfigsIff(db, guard, dev, name, hier);
    hide Harmless;
    if hier || Hit(db, dev, name).None? {
      FreshSound(db, dev, name, hier);
      hide Fresh;
      hide Valid;
      hide Sound;
      hide Refuses;
    }
  }

  /** Such a run leaves what the configurations and additions in it leave on their own. */
  lemma {:induction false} HarmlessQueriesLeaveNoTrace(db: Db, guard: Guard, es: seq<Event>)
    requires Sound(db) && After(db, guard, es).Some? && Undisturbed(db, guard, es)
    ensures After(db, guard, Changes(es)) == Some(After(db, guard, es).value.(cache := db.cache))
  {
    if es != [] {
      var n := |es| - 1;
      var e := es[n];
      HarmlessQueriesLeaveNoTrace(db, guard, es[..n]);
      var d := After(db, guard, es[..n]).value;
      hide Sound;
      hide Apt;
      hide Harmless;
      if e.Written? || e.Imported? {
        ChangeIgnoresCache(d, guard, e, db.cache);
        hide Step;
        assert Changes(es)[..|Changes(es)| - 1] == Changes(es[..n]);
      } else {
        QuietStep(d, guard, e);
        hide Step;
        assert Changes(es) == Changes(es[..n]);
      }
    }
  }

  // ------------------------------------------------------ what a device sees of its own

  /** A device that added objects to a class with stored ones sees those first, then its own. */
  lemma OwnListedLast(db: Db, dev: string, name: string)
    requires Sound(db) && DnsOf(db, name) != [] && AllLone(ConfigsOf(db, dev), AddedTo(db, dev, name))
    ensures var os := Objs(db.table, ConfigsOf(db, dev), DnsOf(db, name), false)
                      + Onlys(ConfigsOf(db, dev), AddedTo(db, dev, name));
            Fresh(db, dev, name, false) == Some((db, map[name := os]))
  {
    var conf := ConfigsOf(db, dev);
    GatherLists(db.table, conf, DnsOf(db, name), AddedTo(db, dev, name), name);
    assert dev in db.configs ==> db.configs[dev := conf] == db.configs;
  }

  function Copies<T>(xs: seq<T>, n: nat): seq<T>
  {
    if n == 0 then [] else Copies(xs, n - 1) + xs
  }

  function Asked(dev: string, name: string, n: nat): seq<Event>
  {
    if n == 0 then [] else Asked(dev, name, n - 1) + [Queried(dev, name, false)]
  }

  lemma OnlysFrame(conf: Configs, lead: string, c: Config, adds: seq<string>)
    requires lead !in adds && AllLone(conf, adds)
    ensures AllLone(conf[lead := c], adds) && Onlys(conf[lead := c], adds) == Onlys(conf, adds)
    decreases |adds|
  {
    if adds != [] {
      OnlysFrame(conf, lead, c, adds[..|adds| - 1]);
      assert adds[|adds| - 1] in adds;
    }
  }

  /** With no stored object of the class, the first object the device added becomes the answer
      itself, with the others appended to its configuration. */
  lemma FirstTakesOthers(db: Db, guard: Guard, dev: string, name: string)
    requires Sound(db) && DnsOf(db, name) == [] && AddsTo(db, dev, name) && AddedTo(db, dev, name) != []
    requires AllLone(ConfigsOf(db, dev), AddedTo(db, dev, name)[1..])
    ensures var conf, adds := ConfigsOf(db, dev), AddedTo(db, dev, name);
            var out := Stretched(conf[adds[0]], Onlys(conf, adds[1..]));
            Query(db, guard, dev, name, false) == Some((Rewritten(db, dev, conf[adds[0] := out]), out))
  {
    var adds := AddedTo(db, dev, name);
    assert [] + adds == adds;
    GatherStretches(db.table, ConfigsOf(db, dev), adds);
  }

  lemma StretchedTwice(c: Config, a: seq<Obj>, b: seq<Obj>)
    ensures Stretched(Stretched(c, a), b) == Stretched(c, a + b)
  {
    assert forall k :: k in c ==> (c[k] + a) + b == c[k] + (a + b);
  }

  /** A device that alone has objects of the class, recorded with it as they come. */
  ghost predicate Alone(db: Db, dev: string, name: string)
    requires Sound(db)
  {
    && DnsOf(db, name) == [] && AddsTo(db, dev, name) && AddedTo(db, dev, name) != []
    && AllLone(ConfigsOf(db, dev), AddedTo(db, dev, name)[1..])
  }

  /** The first object the device added with n copies of the others appended to it. */
  ghost function Lengthened(db: Db, dev: string, name: string, n: nat): Payload
    requires Sound(db) && Alone(db, dev, name)
  {
    var conf, adds := ConfigsOf(db, dev), AddedTo(db, dev, name);
    Stretched(conf[adds[0]], Copies(Onlys(conf, adds[1..]), n))
  }

  ghost function AfterAnswers(db: Db, dev: string, name: string, n: nat): Db
    requires Sound(db) && Alone(db, dev, name)
  {
    Rewritten(db, dev, ConfigsOf(db, dev)[AddedTo(db, dev, name)[0] := Lengthened(db, dev, name, n)])
  }

  lemma NextAnswer(db: Db, guard: Guard, dev: string, name: string, n: nat)
    requires Sound(db) && Alone(db, dev, name) && Sound(AfterAnswers(db, dev, name, n))
    ensures Query(AfterAnswers(db, dev, name, n), guard, dev, name, false)
         == Some((AfterAnswers(db, dev, name, n + 1), Lengthened(db, dev, name, n + 1)))
  {
    var conf, adds := ConfigsOf(db, dev), AddedTo(db, dev, name);
    var d, out, more := AfterAnswers(db, dev, name, n), Lengthened(db, dev, name, n), Lengthened(db, dev, name, n + 1);
    StillAlone(db, dev, name, n);
    FirstTakesOthers(d, guard, dev, name);
    hide Sound;
    hide Query;
    hide AllLone;
    hide Alone;
    StretchedTwice(conf[adds[0]], Copies(Onlys(conf, adds[1..]), n), Onlys(conf, adds[1..]));
    assert conf[adds[0] := out][adds[0] := more] == conf[adds[0] := more];
    assert db.configs[dev := conf[adds[0] := out]][dev := conf[adds[0] := more]]
           == db.configs[dev := conf[adds[0] := more]];
  }

  lemma StillAlone(db: Db, dev: string, name: string, n: nat)
    requires Sound(db) && Alone(db, dev, name) && Sound(AfterAnswers(db, dev, name, n))
    ensures var d, adds := AfterAnswers(db, dev, name, n), AddedTo(db, dev, name);
            && ConfigsOf(d, dev) == ConfigsOf(db, dev)[adds[0] := Lengthened(db, dev, name, n)]
            && dev in db.configs && AddedTo(d, dev, name) == adds && Alone(d, dev, name)
            && Onlys(ConfigsOf(d, dev), adds[1..]) == Onlys(ConfigsOf(db, dev), adds[1..])
  {
    var adds := AddedTo(db, dev, name);
    assert dev in db.configs && adds[0] !in adds[1..];
    OnlysFrame(ConfigsOf(db, dev), adds[0], Lengthened(db, dev, name, n), adds[1..]);
  }

  lemma NoAnswersYet(db: Db, dev: string, name: string)
    requires Sound(db) && Alone(db, dev, name)
    ensures AfterAnswers(db, dev, name, 0) == db
  {
    var conf, lead := ConfigsOf(db, dev), AddedTo(db, dev, name)[0];
    StretchedNone(conf[lead]);
    assert conf[lead := conf[lead]] == conf;
    assert dev in db.configs && db.configs[dev := conf] == db.configs;
  }

  /** So every such query repeats the others once more: the answer to the query after n of them
      lists them n + 1 times. */
  lemma {:induction false} AnswersGrow(db: Db, guard: Guard, dev: string, name: string, n: nat)
    requires Sound(db) && Alone(db, dev, name)
    ensures After(db, guard, Asked(dev, name, n)) == Some(AfterAnswers(db, dev, name, n))
    ensures Sound(AfterAnswers(db, dev, name, n))
    ensures Query(AfterAnswers(db, dev, name, n), guard, dev, name, false)
         == Some((AfterAnswers(db, dev, name, n + 1), Lengthened(db, dev, name, n + 1)))
  {
    hide Sound;
    hide Query;
    hide Alone;
    hide AfterAnswers;
    if n == 0 {
      NoAnswersYet(db, dev, name);
    } else {
      AnswersGrow(db, guard, dev, name, n - 1);
      var es := Asked(dev, name, n);
      assert es[..|es| - 1] == Asked(dev, name, n - 1) && es[|es| - 1] == Queried(dev, name, false);
      QuerySound(AfterAnswers(db, dev, name, n - 1), guard, dev, name, false);
    }
    NextAnswer(db, guard, dev, name, n);
  }
}
