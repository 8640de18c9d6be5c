/** The object database in the source's form: the object that answers queries from the table. */
module XmlDb {
  import opened Basics
  import opened ClassCache
  import opened ClassQuery
  import opened Sorting
  import opened XmlStore
  import opened XmlTree
  import Text
  import XmlParse

  /** Names of ks whose entry is of the class. */
  function OfClass(t: Table, ks: seq<string>, name: string): seq<string>
    requires forall k :: k in ks ==> k in t
  {
    if ks == [] then []
    else
      var n := |ks| - 1;
      OfClass(t, ks[..n], name) + (if t[ks[n]].name == name then [ks[n]] else [])
  }

  lemma OfClassNext(t: Table, ks: seq<string>, i: nat)
    requires i < |ks| && forall k :: k in ks ==> k in t
    ensures forall c ::
              OfClass(t, ks[..i + 1], c) == OfClass(t, ks[..i], c) + (if t[ks[i]].name == c then [ks[i]] else [])
  {
    assert ks[..i + 1][..i] == ks[..i];
  }

  lemma {:induction false} OfClassMembers(t: Table, ks: seq<string>, name: string, k: string)
    requires forall x :: x in ks ==> x in t
    ensures k in OfClass(t, ks, name) <==> k in ks && t[k].name == name
  {
    if ks != [] {
      var n := |ks| - 1;
      OfClassMembers(t, ks[..n], name, k);
      assert ks == ks[..n] + [ks[n]];
    }
  }

  lemma IndexSound(db: Db)
    requires Keyed(db.table) && db.configs == map[] && db.added == map[]
    requires forall c :: DnsOf(db, c) == OfClass(db.table, Ordered(db.table.Keys), c)
    ensures Sound(db)
  {
    var ks := Ordered(db.table.Keys);
    forall c | c in db.classes
      ensures AllOf(db.table, db.classes[c], c)
    {
      assert db.classes[c] == DnsOf(db, c);
      forall i | 0 <= i < |db.classes[c]|
        ensures db.classes[c][i] in db.table && db.table[db.classes[c][i]].name == c
      {
        OfClassMembers(db.table, ks, c, db.classes[c][i]);
      }
    }
  }

  class XmlDb {
    const boltdb: XmlParse.Bolt
    var classes: map<string, seq<string>>
    var configs: map<string, Configs>
    var configClassess: map<string, map<string, seq<string>>>
    var classCache: map<string, Payload>

    ghost function Now(): Db
      reads this, boltdb
    {
      Db(boltdb.table, classes, configs, configClassess, classCache)
    }

    /** Open a table. */
    constructor (boltdb: XmlParse.Bolt)
      requires Keyed(boltdb.table)
      ensures this.boltdb == boltdb && Sound(Now())
      ensures configs == map[] && configClassess == map[] && classCache == map[]
      ensures forall c :: DnsOf(Now(), c) == OfClass(boltdb.table, Ordered(boltdb.table.Keys), c)
    {
      this.boltdb := boltdb;
      classes, configs, configClassess, classCache := map[], map[], map[], map[];
      new;
      ParseBolt();
      IndexSound(Now());
    }

    /** Index the table by class in the order of its names. */
    method ParseBolt()
      requires classes == map[]
      modifies this`classes
      ensures forall c :: DnsOf(Now(), c) == OfClass(boltdb.table, Ordered(boltdb.table.Keys), c)
    {
      var ks := Cursor();
      hide Ordered;
      for i := 0 to |ks|
        invariant forall c :: (if c in classes then classes[c] else []) == OfClass(boltdb.table, ks[..i], c)
      {
        OfClassNext(boltdb.table, ks, i);
        hide OfClass;
        var c := boltdb.table[ks[i]].name;
        classes := classes[c := (if c in classes then classes[c] else []) + [ks[i]]];
      }
      assert ks[..|ks|] == ks;
    }

    /** The names of the table in the order in which a cursor meets them. */
    method Cursor() returns (ks: seq<string>)
      ensures ks == Ordered(boltdb.table.Keys)
    {
      var names := Enumerate(boltdb.table.Keys);
      SortOrders(names, boltdb.table.Keys);
      ks := Sort(names);
    }

    /** First position of a cursor at or after the prefix. */
    method Seek(ks: seq<string>, prefix: string) returns (i: nat)
      ensures i <= |ks|
      ensures forall j :: 0 <= j < i ==> Text.Less(ks[j], prefix)
      ensures i < |ks| ==> !Text.Less(ks[i], prefix)
    {
      i := 0;
      while i < |ks| && Text.Less(ks[i], prefix)
        invariant i <= |ks| && forall j :: 0 <= j < i ==> Text.Less(ks[j], prefix)
      {
        i := i + 1;
      }
    }

    /** Names strictly below dn, by a prefix search. */
    method GetChildrenDns(dn: string) returns (out: seq<string>)
      ensures out == Ordered(Below(boltdb.table, dn))
    {
      var prefix := dn + "/";
      var ks := Cursor();
      hide Ordered;
      hide Ascending;
      hide Lists;
      var start := Seek(ks, prefix);
      out := [];
      var i := start;
      while i < |ks| && prefix <= ks[i]
        invariant start <= i <= |ks| && out == ks[start..i]
        invariant forall j :: start <= j < i ==> prefix <= ks[j]
      {
        out := out + [ks[i]];
        i := i + 1;
      }
      PrefixRun(ks, boltdb.table, dn, start, i);
      OrderedUnique(out, Below(boltdb.table, dn));
    }

    /** A stored object's attributes with configured ones put over them. */
    method ApplyConfig(attrs: map<string, string>, conf: map<string, string>) returns (mv: map<string, string>)
      ensures mv == attrs + conf
    {
      mv := attrs;
      var left := conf.Keys;
      while left != {}
        invariant left <= conf.Keys
        invariant mv == attrs + (map k | k in conf && k !in left :: conf[k])
        decreases left
      {
        var k :| k in left;
        left := left - {k};
        mv := mv[k := conf[k]];
      }
      assert (map k | k in conf && k !in left :: conf[k]) == conf;
    }

    /** An object with the device's configuration applied, and its children if asked for. An
        object that exists only as a configuration is that configuration, not a copy of it:
        its children are nested in place. */
    method GetDn(dev: string, dn: string, resolveChildren: bool) returns (mo: Look)
      requires Fits(boltdb.table, ConfigsOf(Now(), dev)) && Keyed(boltdb.table)
      modifies this`configs
      ensures mo == LookUp(boltdb.table, old(ConfigsOf(Now(), dev)), dn, resolveChildren)
      ensures Now() == Rewritten(old(Now()), dev, Held(boltdb.table, old(ConfigsOf(Now(), dev)), dn, resolveChildren))
      decreases if dn in boltdb.table then 0 else 1, |Below(boltdb.table, dn)|, 1
    {
      ghost var t, conf := boltdb.table, ConfigsOf(Now(), dev);
      assert dev in configs ==> configs[dev := conf] == configs;
      var confmo := GetDnFromConfigs(dev, dn);
      if dn in boltdb.table {
        var dbmo := boltdb.table[dn];
        var nested := [];
        if confmo.Some? {
          var given := confmo.value[dbmo.name][0];
          var attrs := ApplyConfig(dbmo.attrs, given.entry.attrs);
          dbmo, nested := Entry(dbmo.name, attrs), given.nested;
        }
        assert dbmo == Shown(t, conf, dn) && nested == Given(t, conf, dn);
        if resolveChildren {
          var children := ResolveChildren(dev, dbmo.attrs[DN]);
          nested := nested + children;
        }
        return Seen(map[dbmo.name := [Obj(dbmo, nested)]]);
      }
      if confmo.None? {
        return Absent;
      }
      if !resolveChildren {
        assert conf[dn := conf[dn]] == conf;
        return Seen(confmo.value);
      }
      var parent := OnlyObject(confmo.value);
      if parent.None? || DN !in parent.value.entry.attrs {
        return Stopped;
      }
      var o := parent.value;
      var nested := ResolveChildren(dev, o.entry.attrs[DN]);
      var out := map k | k in confmo.value :: [Obj(o.entry, o.nested + nested)];
      configs := configs[dev := configs[dev][dn := out]];
      mo := Seen(out);
    }

    /** One stored object with its own children. */
    method ResolveChild(dev: string, childDn: string) returns (child: Obj)
      requires Fits(boltdb.table, ConfigsOf(Now(), dev)) && Keyed(boltdb.table) && childDn in boltdb.table
      modifies this`configs
      ensures Now() == old(Now()) && child == Resolved(boltdb.table, ConfigsOf(Now(), dev), childDn)
      decreases 0, |Below(boltdb.table, childDn)|, 2
    {
      StoredLook(boltdb.table, ConfigsOf(Now(), dev), childDn);
      RewrittenSame(Now(), dev);
      hide LookUp;
      hide Held;
      hide Resolved;
      hide Rewritten;
      hide ConfigsOf;
      var look := GetDn(dev, childDn, true);
      child := look.mo[boltdb.table[childDn].name][0];
    }

    /** Each object below dn in turn, with its own children. */
    method ResolveChildren(dev: string, dn: string) returns (nested: seq<Obj>)
      requires Fits(boltdb.table, ConfigsOf(Now(), dev)) && Keyed(boltdb.table)
      modifies this`configs
      ensures Now() == old(Now())
      ensures nested == ResolvedAll(boltdb.table, ConfigsOf(Now(), dev), dn, Ordered(Below(boltdb.table, dn)))
      decreases 0, |Below(boltdb.table, dn)|, 0
    {
      ghost var t, conf := boltdb.table, ConfigsOf(Now(), dev);
      nested := [];
      var childDns := GetChildrenDns(dn);
      ListedBelow(t, dn, childDns);
      ResolvedNone(t, conf, dn, childDns);
      hide Ordered;
      hide ResolvedAll;
      hide Resolved;
      hide Fits;
      hide Keyed;
      hide ConfigsOf;
      hide Below;
      for i := 0 to |childDns|
        invariant Now() == old(Now())
        invariant nested == ResolvedAll(t, conf, dn, childDns[..i])
      {
        ResolvedNext(t, conf, dn, childDns, i);
        BelowShrinks(t, dn, childDns[i]);
        ChildStored(t, dn, childDns[i]);
        var child := ResolveChild(dev, childDns[i]);
        nested := nested + [child];
      }
      assert childDns[..|childDns|] == childDns;
    }

    /** The one object of a configuration. */
    method OnlyObject(c: Config) returns (o: Option<Obj>)
      ensures o == if Lone(c) then Some(Only(c)) else None
    {
      if |c| != 1 {
        return None;
      }
      var k :| k in c.Keys;
      OneMember(c.Keys, k);
      if |c[k]| != 1 {
        return None;
      }
      assert Lone(c);
      OnlyAt(c, k);
      o := Some(c[k][0]);
    }

    method GetDnFromConfigs(dev: string, dn: string) returns (mo: Option<Config>)
      ensures mo == (var conf := ConfigsOf(Now(), dev); if Live(conf, dn) then Some(conf[dn]) else None)
    {
      if dev !in configs {
        return None;
      }
      mo := if dn in configs[dev] && configs[dev][dn] != map[] then Some(configs[dev][dn]) else None;
    }

    /** Append an object to the answer. While the answer is a stored configuration, what is
        appended to the one is appended to the other. */
    method Append(dev: string, found: Config, out: Payload, lead: Option<string>) returns (ok: bool, out': Payload)
      requires lead.Some? ==> lead.value in ConfigsOf(Now(), dev)
      modifies this`configs
      ensures ok == Lone(found)
      ensures ok ==> out' == Appended(out, Only(found))
      ensures ok ==> Now() == Rewritten(old(Now()), dev,
                       var conf := old(ConfigsOf(Now(), dev)); if lead.Some? then conf[lead.value := out'] else conf)
    {
      var o := OnlyObject(found);
      RewrittenSame(Now(), dev);
      if o.None? {
        return false, out;
      }
      ok, out' := true, map k | k in out :: out[k] + [o.value];
      assert out' == Appended(out, o.value);
      if lead.Some? {
        configs := configs[dev := configs[dev][lead.value := out']];
      }
    }

    /** Take one more object into the answer. */
    method GatherDn(dev: string, dn: string, hierarchical: bool, out: Payload, lead: Option<string>)
      returns (ok: bool, out': Payload, lead': Option<string>)
      requires Keyed(boltdb.table) && Coupled(boltdb.table, Gathering(ConfigsOf(Now(), dev), out, lead))
      modifies this`configs
      ensures ok ==> Now() == Rewritten(old(Now()), dev, ConfigsOf(Now(), dev))
      ensures GatherOne(boltdb.table, Gathering(old(ConfigsOf(Now(), dev)), out, lead), dn, hierarchical)
           == if ok then Some(Gathering(ConfigsOf(Now(), dev), out', lead')) else None
    {
      ghost var conf := ConfigsOf(Now(), dev);
      ok, out', lead' := true, out, lead;
      var mo := GetDn(dev, dn, hierarchical);
      HeldKeys(boltdb.table, conf, dn, hierarchical);
      RewrittenNow(old(Now()), dev, Held(boltdb.table, conf, dn, hierarchical));
      hide LookUp;
      hide Held;
      hide Only;
      hide Lone;
      hide Fits;
      hide Keyed;
      hide ConfigsOf;
      match mo
      case Absent =>
      case Stopped =>
        ok := false;
      case Seen(found) =>
        if out == map[] {
          out', lead' := found, if dn in boltdb.table then None else Some(dn);
        } else {
          ghost var held := ConfigsOf(Now(), dev);
          ok, out' := Append(dev, found, out, lead);
          if ok {
            ghost var after := if lead.Some? then held[lead.value := out'] else held;
            RewrittenTwice(old(Now()), dev, held, after);
            RewrittenNow(old(Now()), dev, after);
          }
        }
    }

    /** Take the objects into one answer in turn. */
    method GatherDns(dev: string, dns: seq<string>, hierarchical: bool) returns (result: Option<Payload>)
      requires Keyed(boltdb.table) && Fits(boltdb.table, ConfigsOf(Now(), dev))
      modifies this`configs
      ensures var r := Gather(boltdb.table, old(ConfigsOf(Now(), dev)), dns, hierarchical);
              if r.Some? then result == Some(r.value.out)
                  && Now() == Rewritten(old(Now()), dev, r.value.conf) else result == None
    {
      ghost var t, conf := boltdb.table, ConfigsOf(Now(), dev);
      var out: Payload := map[];
      var lead: Option<string> := None;
      RewrittenSame(Now(), dev);
      hide Coupled;
      hide GatherOne;
      hide Rewritten;
      hide Fits;
      hide Keyed;
      hide ConfigsOf;
      for i := 0 to |dns|
        invariant Now() == Rewritten(old(Now()), dev, ConfigsOf(Now(), dev))
        invariant Gather(t, conf, dns[..i], hierarchical) == Some(Gathering(ConfigsOf(Now(), dev), out, lead))
      {
        assert dns[..i + 1][..i] == dns[..i];
        ghost var before := ConfigsOf(Now(), dev);
        var ok;
        ok, out, lead := GatherDn(dev, dns[i], hierarchical, out, lead);
        if !ok {
          FailedEarly(t, conf, dns, i + 1, hierarchical);
          return None;
        }
        RewrittenTwice(old(Now()), dev, before, ConfigsOf(Now(), dev));
      }
      assert dns[..|dns|] == dns;
      result := Some(out);
    }

    /** Everything of a class, as the device sees it. */
    method GetMosFromClass(dev: string, name: string, hierarchical: bool) returns (result: Option<Payload>)
      requires Sound(Now())
      modifies this`configs
      ensures var r := Fresh(old(Now()), dev, name, hierarchical);
              if r.Some? then result == Some(r.value.1) && Now() == r.value.0 else result == None
    {
      var dns := if name in classes then classes[name] else [];
      assert dns + [] == dns;
      if dev in configClassess && name in configClassess[dev] {
        dns := dns + configClassess[dev][name];
      }
      hide Fits;
      hide Gather;
      result := GatherDns(dev, dns, hierarchical);
    }

    /** Record a configuration of the device, class by class over an earlier one; true when
        an earlier nil one stops that. */
    method WriteDn(dev: string, dn: string, inmap: Config) returns (panicked: bool)
      modifies this`configs
      ensures var conf := old(ConfigsOf(Now(), dev)); panicked == (dn in conf && !Live(conf, dn) && inmap != map[])
      ensures !panicked ==> Now() == Write(old(Now()), dev, dn, inmap)
    {
      var dmap := if dev in configs then configs[dev] else map[];
      if dn !in dmap {
        dmap := dmap[dn := inmap];
      } else {
        var mo := dmap[dn];
        if mo == map[] && inmap != map[] {
          return true;
        }
        var left := inmap.Keys;
        while left != {}
          invariant left <= inmap.Keys
          invariant mo == dmap[dn] + (map k | k in inmap && k !in left :: inmap[k])
          decreases left
        {
          var k :| k in left;
          left := left - {k};
          mo := mo[k := inmap[k]];
        }
        assert (map k | k in inmap && k !in left :: inmap[k]) == inmap;
        dmap := dmap[dn := mo];
      }
      configs := configs[dev := dmap];
      panicked := false;
    }

    /** Record that the device added a name to a class. */
    method AddToClass(dev: string, name: string, dn: string)
      modifies this`configClassess
      ensures Now() == WithAdded(old(Now()), dev, name, dn)
    {
      if dev !in configClassess {
        configClassess := configClassess[dev := map[]];
      }
      var dcfs := configClassess[dev];
      configClassess := configClassess[dev := dcfs[name := (if name in dcfs then dcfs[name] else []) + [dn]]];
    }

    /** Add an object of the device: refused when it sees one with the dn, else written and
        recorded under its class. */
    method AddInventory(dev: string, name: string, dn: string, attrs: map<string, string>) returns (refused: bool)
      requires Sound(Now()) && Apt(Now(), Imported(dev, name, dn, attrs))
      modifies this`configs, this`configClassess
      ensures refused == Exists(old(Now()), dev, dn)
      ensures Now() == if refused then old(Now()) else Add(old(Now()), dev, name, dn, attrs)
    {
      ghost var conf := ConfigsOf(Now(), dev);
      assert dev in configs ==> configs[dev := conf] == configs;
      assert dn in conf ==> conf[dn := conf[dn]] == conf;
      var emo := GetDn(dev, dn, false);
      assert Now() == old(Now());
      hide Sound;
      hide LookUp;
      hide Held;
      if emo.Seen? {
        return true;
      }
      var panicked := WriteDn(dev, dn, map[name := [Obj(Entry(name, attrs), [])]]);
      AddToClass(dev, name, dn);
      refused := false;
    }

    /** Whether the device configured a name of the class: the double loop of the cache guards. */
    method ConfiguresClass(dev: string, name: string) returns (touches: bool)
      ensures touches == Touches(Now(), dev, name)
    {
      var dns := if name in classes then classes[name] else [];
      var dnConfigs := if dev in configs then configs[dev] else map[];
      var left := dnConfigs.Keys;
      while left != {}
        invariant left <= dnConfigs.Keys
        invariant forall dn :: dn in dnConfigs && dn !in left ==> dn !in dns
        decreases left
      {
        var dn :| dn in left;
        left := left - {dn};
        for i := 0 to |dns|
          invariant dn !in dns[..i]
        {
          if dn == dns[i] {
            assert dn in DnsOf(Now(), name) && dn in ConfigsOf(Now(), dev);
            return true;
          }
        }
        assert dns[..|dns|] == dns;
      }
      touches := false;
    }

    method AddToClassCache(dev: string, name: string, b: Payload)
      modifies this`classCache
      ensures Now() == ClassCache.Insert(old(Now()), AsWritten, dev, name, b)
    {
      if dev in configClassess && name in configClassess[dev] {
        return;
      }
      if dev in configClassess {
        var touches := ConfiguresClass(dev, name);
        if touches {
          return;
        }
      }
      classCache := classCache[name := b];
    }

    method GetFromClassCache(dev: string, name: string) returns (b: Option<Payload>)
      ensures b == Hit(Now(), dev, name)
    {
      if name !in classCache {
        return None;
      }
      if dev in configClassess && name in configClassess[dev] {
        return None;
      }
      if dev in configs {
        var touches := ConfiguresClass(dev, name);
        if touches {
          return None;
        }
      }
      b := Some(classCache[name]);
    }

    method CleanClassCache()
      modifies this`classCache
      ensures Now() == old(Now()).(cache := map[])
    {
      classCache := map[];
    }

    /** A class query of a device. */
    method ConfigResolveClass(dev: string, name: string, hierarchical: bool) returns (out: Option<Payload>)
      requires Sound(Now())
      modifies this`configs, this`classCache
      ensures var r := Query(old(Now()), AsWritten, dev, name, hierarchical);
              if r.Some? then out == Some(r.value.1) && Now() == r.value.0 else out == None
    {
      if !hierarchical {
        var cachebuf := GetFromClassCache(dev, name);
        if cachebuf.Some? {
          return cachebuf;
        }
      }
      out := GetMosFromClass(dev, name, hierarchical);
      if out.Some? {
        AddToClassCache(dev, name, out.value);
      }
    }
  }

  lemma RewrittenSame(db: Db, dev: string)
    ensures Rewritten(db, dev, ConfigsOf(db, dev)) == db
  {
    if dev in db.configs {
      assert db.configs[dev := db.configs[dev]] == db.configs;
    }
  }

  lemma RewrittenTwice(db: Db, dev: string, a: Configs, b: Configs)
    ensures Rewritten(Rewritten(db, dev, a), dev, b) == Rewritten(db, dev, b)
  {
    if dev in db.configs {
      assert db.configs[dev := a][dev := b] == db.configs[dev := b];
    }
  }

  lemma HeldKeys(t: Table, conf: Configs, dn: string, hier: bool)
    requires Fits(t, conf)
    ensures Held(t, conf, dn, hier).Keys == conf.Keys
  {
  }

  lemma RewrittenNow(db: Db, dev: string, conf: Configs)
    requires conf.Keys == ConfigsOf(db, dev).Keys
    ensures ConfigsOf(Rewritten(db, dev, conf), dev) == conf
  {
    assert dev !in db.configs ==> conf == map[];
  }

  lemma ListedBelow(t: Table, dn: string, ks: seq<string>)
    requires ks == Ordered(Below(t, dn))
    ensures forall k :: k in ks ==> k in Below(t, dn)
  {
  }

  lemma ChildStored(t: Table, dn: string, k: string)
    requires k in Below(t, dn)
    ensures k in t
  {
  }

  lemma ResolvedNone(t: Table, conf: Configs, dn: string, ks: seq<string>)
    requires Fits(t, conf) && forall k :: k in ks ==> k in Below(t, dn)
    ensures ResolvedAll(t, conf, dn, ks[..0]) == []
  {
  }

  lemma ResolvedNext(t: Table, conf: Configs, dn: string, ks: seq<string>, i: nat)
    requires Fits(t, conf) && i < |ks| && forall k :: k in ks ==> k in Below(t, dn)
    ensures ks[i] in Below(t, dn)
    ensures ResolvedAll(t, conf, dn, ks[..i + 1]) == ResolvedAll(t, conf, dn, ks[..i]) + [Resolved(t, conf, ks[i])]
  {
    assert ks[..i + 1][..i] == ks[..i] && ks[i] in ks;
  }

  lemma StoredLook(t: Table, conf: Configs, dn: string)
    requires Fits(t, conf) && dn in t
    ensures LookUp(t, conf, dn, true) == Seen(map[t[dn].name := [Resolved(t, conf, dn)]])
            && Held(t, conf, dn, true) == conf
  {
  }

  /** A query that fails at one object fails. */
  lemma {:induction false} FailedEarly(t: Table, conf: Configs, dns: seq<string>, i: nat, hier: bool)
    requires Fits(t, conf) && i <= |dns| && Gather(t, conf, dns[..i], hier) == None
    ensures Gather(t, conf, dns, hier) == None
    decreases |dns|
  {
    if i == |dns| {
      assert dns[..i] == dns;
    } else {
      assert dns[..|dns| - 1][..i] == dns[..i];
      FailedEarly(t, conf, dns[..|dns| - 1], i, hier);
    }
  }

  /** In an ascending listing, the names below dn are one run from the first name that is not
      below its prefix. */
  lemma PrefixRun(ks: seq<string>, t: Table, dn: string, start: nat, end: nat)
    requires Lists(ks, t.Keys) && Ascending(ks) && start <= end <= |ks|
    requires forall j :: 0 <= j < start ==> Text.Less(ks[j], dn + "/")
    requires start < |ks| ==> !Text.Less(ks[start], dn + "/")
    requires forall j :: start <= j < end ==> dn + "/" <= ks[j]
    requires end < |ks| ==> !(dn + "/" <= ks[end])
    ensures Lists(ks[start..end], Below(t, dn)) && Ascending(ks[start..end])
  {
    forall k | k in Below(t, dn)
      ensures k in ks[start..end]
    {
      var a :| 0 <= a < |ks| && ks[a] == k;
      InRun(ks, dn + "/", start, end, a);
      assert k == ks[start..end][a - start];
    }
  }

  lemma InRun(ks: seq<string>, prefix: string, start: nat, end: nat, a: nat)
    requires Ascending(ks) && start <= end <= |ks| && a < |ks| && prefix <= ks[a]
    requires forall j :: 0 <= j < start ==> Text.Less(ks[j], prefix)
    requires start < |ks| ==> !Text.Less(ks[start], prefix)
    requires end < |ks| ==> !(prefix <= ks[end])
    ensures start <= a < end
  {
    Text.PrefixInterval(prefix, ks[a], ks[a]);
    if end < |ks| {
      NotBelow(ks, prefix, start, end);
      Text.PrefixInterval(prefix, ks[end], ks[a]);
    }
  }

  lemma NotBelow(ks: seq<string>, prefix: string, start: nat, i: nat)
    requires Ascending(ks) && start <= i < |ks| && !Text.Less(ks[start], prefix)
    ensures !Text.Less(ks[i], prefix)
  {
    if start < i && Text.Less(ks[i], prefix) {
      Text.LessTransitive(ks[start], ks[i], prefix);
    }
  }
}
