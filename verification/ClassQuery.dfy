/** Class queries computed afresh: looking up each object, grouping the objects into one answer,
    and what that does to configurations which the source hands out without copying them. */
module ClassQuery {
  import opened Basics
  import opened Sorting
  import opened XmlStore
  import opened XmlTree

  /** What looking up a dn comes to: nothing there, a failed type assertion or a choice that
      depends on map order, or objects by class. */
  datatype Look = Absent | Stopped | Seen(mo: Config)

  /** One object under one class. */
  predicate Lone(c: Config)
  {
    |c| == 1 && forall k :: k in c ==> |c[k]| == 1
  }

  ghost function Only(c: Config): Obj
    requires Lone(c)
  {
    assert c.Keys != {};
    var k :| k in c;
    c[k][0]
  }

  lemma OnlyAt(c: Config, k: string)
    requires Lone(c) && k in c
    ensures c == map[k := [Only(c)]]
  {
    OneMember(c.Keys, k);
    assert forall j :: j in c ==> j in c.Keys && j == k;
    assert c[k] == [Only(c)];
    assert c.Keys == map[k := [Only(c)]].Keys;
  }

  lemma OneMember<T>(s: set<T>, x: T)
    requires |s| == 1 && x in s
    ensures s == {x}
  {
    assert |s - {x}| == 0;
  }

  lemma LoneOf(k: string, o: Obj)
    ensures Lone(map[k := [o]]) && Only(map[k := [o]]) == o
  {
    var c := map[k := [o]];
    assert c.Keys == {k};
    assert Lone(c);
    OnlyAt(c, k);
    assert c[k][0] == o;
  }

  /** A configured object in which children can be nested: its dn says where they are. */
  ghost predicate Nestable(c: Config)
  {
    Lone(c) && DN in Only(c).entry.attrs
  }

  /** Stored names below the dn that the object itself gives. */
  ghost function Offspring(t: Table, c: Config): set<string>
    requires Nestable(c)
  {
    Below(t, Only(c).entry.attrs[DN])
  }

  /** There is nothing to nest. */
  ghost predicate Barren(t: Table, c: Config)
  {
    Nestable(c) ==> Offspring(t, c) == {}
  }

  /** The object with its children appended. */
  ghost function WithChildren(t: Table, conf: Configs, c: Config): Config
    requires Fits(t, conf) && Nestable(c)
  {
    var o, dn := Only(c), Only(c).entry.attrs[DN];
    map k | k in c :: [Obj(o.entry, o.nested + ResolvedAll(t, conf, dn, Ordered(Below(t, dn))))]
  }

  ghost function StoredObj(t: Table, conf: Configs, dn: string, hier: bool): Obj
    requires Fits(t, conf) && dn in t
  {
    if hier then Resolved(t, conf, dn) else Obj(Shown(t, conf, dn), Given(t, conf, dn))
  }

  ghost function LookUp(t: Table, conf: Configs, dn: string, hier: bool): Look
    requires Fits(t, conf)
  {
    if dn in t then Seen(map[t[dn].name := [StoredObj(t, conf, dn, hier)]])
    else if !Live(conf, dn) then Absent
    else if !hier then Seen(conf[dn])
    else if Nestable(conf[dn]) then Seen(WithChildren(t, conf, conf[dn]))
    else Stopped
  }

  /** The configurations afterwards: what is only configured is not copied when it is looked
      up, so its children end up in the stored configuration. */
  ghost function Held(t: Table, conf: Configs, dn: string, hier: bool): Configs
    requires Fits(t, conf)
  {
    match LookUp(t, conf, dn, hier)
    case Seen(mo) => if dn in t then conf else conf[dn := mo]
    case _ => conf
  }

  /** A class query under way: the configurations as they stand, the answer so far, and the dn
      of the stored configuration that the answer is, if it is one. */
  datatype Gathering = Gathering(conf: Configs, out: Config, lead: Option<string>)

  ghost predicate Coupled(t: Table, g: Gathering)
  {
    && Fits(t, g.conf)
    && (g.lead.Some? ==>
          g.lead.value !in t && g.lead.value in g.conf && g.conf[g.lead.value] == g.out && g.out != map[])
  }

  ghost function Appended(out: Config, o: Obj): Config
  {
    map k | k in out :: out[k] + [o]
  }

  /** One more dn: the first object found is the answer, any other is appended to it, in place. */
  ghost function GatherOne(t: Table, g: Gathering, dn: string, hier: bool): (r: Option<Gathering>)
    requires Coupled(t, g)
    ensures r.Some? ==> Coupled(t, r.value)
  {
    match LookUp(t, g.conf, dn, hier)
    case Absent => Some(g)
    case Stopped => None
    case Seen(mo) =>
      var conf := Held(t, g.conf, dn, hier);
      if g.out == map[] then Some(Gathering(conf, mo, if dn in t then None else Some(dn)))
      else if !Lone(mo) then None
      else
        var out := Appended(g.out, Only(mo));
        assert out.Keys == g.out.Keys;
        Some(Gathering(if g.lead.Some? then conf[g.lead.value := out] else conf, out, g.lead))
  }

  ghost function Gather(t: Table, conf: Configs, dns: seq<string>, hier: bool): (r: Option<Gathering>)
    requires Fits(t, conf)
    ensures r.Some? ==> Coupled(t, r.value)
  {
    if dns == [] then Some(Gathering(conf, map[], None))
    else
      var n := |dns| - 1;
      match Gather(t, conf, dns[..n], hier)
      case None => None
      case Some(g) => GatherOne(t, g, dns[n], hier)
  }

  lemma GatherLast(t: Table, conf: Configs, dns: seq<string>, hier: bool)
    requires Fits(t, conf) && dns != []
    ensures var n := |dns| - 1;
            Gather(t, conf, dns, hier)
            == match Gather(t, conf, dns[..n], hier) case None => None case Some(g) => GatherOne(t, g, dns[n], hier)
  {
  }

  // ------------------------------------------------------------ stored objects

  predicate AllOf(t: Table, dns: seq<string>, name: string)
  {
    forall i :: 0 <= i < |dns| ==> dns[i] in t && t[dns[i]].name == name
  }

  ghost function Objs(t: Table, conf: Configs, dns: seq<string>, hier: bool): (os: seq<Obj>)
    requires Fits(t, conf) && forall i :: 0 <= i < |dns| ==> dns[i] in t
    ensures |os| == |dns|
  {
    if dns == [] then []
    else var n := |dns| - 1; Objs(t, conf, dns[..n], hier) + [StoredObj(t, conf, dns[n], hier)]
  }

  function Grouped(name: string, os: seq<Obj>): Config
  {
    if os == [] then map[] else map[name := os]
  }

  /** Stored objects of one class are listed in order, and no configuration changes. */
  lemma {:induction false} GatherStored(t: Table, conf: Configs, dns: seq<string>, name: string, hier: bool)
    requires Fits(t, conf) && AllOf(t, dns, name)
    ensures Gather(t, conf, dns, hier) == Some(Gathering(conf, Grouped(name, Objs(t, conf, dns, hier)), None))
  {
    if dns != [] {
      var n := |dns| - 1;
      GatherStored(t, conf, dns[..n], name, hier);
      StoredNext(t, conf, dns[n], name, hier, Objs(t, conf, dns[..n], hier));
    }
  }

  lemma StoredNext(t: Table, conf: Configs, dn: string, name: string, hier: bool, os: seq<Obj>)
    requires Fits(t, conf) && dn in t && t[dn].name == name
    ensures GatherOne(t, Gathering(conf, Grouped(name, os), None), dn, hier)
         == Some(Gathering(conf, Grouped(name, os + [StoredObj(t, conf, dn, hier)]), None))
  {
    hide StoredObj;
    hide Fits;
    hide Only;
    hide Lone;
    var o := StoredObj(t, conf, dn, hier);
    LoneOf(name, o);
    assert LookUp(t, conf, dn, hier) == Seen(map[name := [o]]);
    if os == [] {
      assert os + [o] == [o];
    } else {
      assert Appended(map[name := os], o) == map[name := os + [o]];
      assert name in map[name := os] && map[name := os] != map[];
    }
  }

  // --------------------------------------- what a query does to configurations

  predicate NoShorter(a: seq<Obj>, b: seq<Obj>)
  {
    |a| <= |b| && (|a| == 1 && |b| == 1 ==> |a[0].nested| <= |b[0].nested|)
  }

  predicate GrownAt(a: Config, b: Config)
  {
    a.Keys == b.Keys && forall k :: k in a ==> NoShorter(a[k], b[k])
  }

  /** The same dns and classes, with lists and children at least as many. */
  predicate Grown(a: Configs, b: Configs)
  {
    a.Keys == b.Keys && forall dn :: dn in a ==> GrownAt(a[dn], b[dn])
  }

  predicate RicherAt(a: Configs, b: Configs, dn: string, k: string)
  {
    dn in a && dn in b && k in a[dn] && k in b[dn] && NoShorter(a[dn][k], b[dn][k]) && !NoShorter(b[dn][k], a[dn][k])
  }

  ghost predicate Richer(a: Configs, b: Configs)
  {
    exists dn, k :: RicherAt(a, b, dn, k)
  }

  lemma GrownThen(a: Configs, b: Configs, c: Configs)
    requires Grown(a, b) && Grown(b, c)
    ensures Grown(a, c)
    ensures Richer(a, b) || Richer(b, c) ==> Richer(a, c)
  {
    if Richer(a, b) {
      var dn, k :| RicherAt(a, b, dn, k);
      assert GrownAt(b[dn], c[dn]) && RicherAt(a, c, dn, k);
    } else if Richer(b, c) {
      var dn, k :| RicherAt(b, c, dn, k);
      assert GrownAt(a[dn], b[dn]) && RicherAt(a, c, dn, k);
    }
  }

  lemma RicherDiffers(a: Configs, b: Configs)
    requires Richer(a, b)
    ensures a != b
  {
  }

  /** Looking up what is only configured changes it exactly when children are asked for and there are some. */
  lemma HeldIff(t: Table, conf: Configs, dn: string, hier: bool)
    requires Fits(t, conf) && dn !in t && Live(conf, dn) && LookUp(t, conf, dn, hier).Seen?
    ensures Grown(conf, Held(t, conf, dn, hier))
    ensures if hier && !Barren(t, conf[dn]) then Richer(conf, Held(t, conf, dn, hier))
            else Held(t, conf, dn, hier) == conf
  {
    if hier {
      ChildrenHeld(t, conf, dn);
    } else {
      assert conf[dn := conf[dn]] == conf;
    }
  }

  lemma ChildrenHeld(t: Table, conf: Configs, dn: string)
    requires Fits(t, conf) && dn in conf && Nestable(conf[dn])
    ensures var held := conf[dn := WithChildren(t, conf, conf[dn])];
            Grown(conf, held) && if Barren(t, conf[dn]) then held == conf else Richer(conf, held)
  {
    hide Fits;
    var c := conf[dn];
    assert c.Keys != {};
    var k :| k in c;
    OnlyAt(c, k);
    var o, d := Only(c), Only(c).entry.attrs[DN];
    var xs := ResolvedAll(t, conf, d, Ordered(Below(t, d)));
    AllResolved(t, conf, d, Ordered(Below(t, d)));
    NestedMore(conf, dn, k, o, xs);
    hide Richer;
    hide Grown;
    hide ResolvedAll;
    hide Only;
    hide Lone;
    hide Below;
    assert WithChildren(t, conf, c) == map[k := [Obj(o.entry, o.nested + xs)]];
    if x :| x in Below(t, d) {
      assert x in Ordered(Below(t, d));
    }
  }

  lemma NestedMore(conf: Configs, dn: string, k: string, o: Obj, xs: seq<Obj>)
    requires dn in conf && conf[dn] == map[k := [o]]
    ensures var held := conf[dn := map[k := [Obj(o.entry, o.nested + xs)]]];
            Grown(conf, held) && if xs != [] then Richer(conf, held) else held == conf
  {
    var held := conf[dn := map[k := [Obj(o.entry, o.nested + xs)]]];
    if xs != [] {
      assert RicherAt(conf, held, dn, k);
    } else {
      assert o.nested + [] == o.nested;
      assert held[dn] == conf[dn];
    }
  }

  lemma {:induction false} AllResolved(t: Table, conf: Configs, dn: string, ks: seq<string>)
    requires Fits(t, conf) && forall k :: k in ks ==> k in Below(t, dn)
    ensures |ResolvedAll(t, conf, dn, ks)| == |ks|
    decreases |ks|
  {
    if ks != [] {
      AllResolved(t, conf, dn, ks[..|ks| - 1]);
    }
  }

  /** Appending to an answer that is a stored configuration changes it. */
  lemma LeadGrows(conf: Configs, held: Configs, lead: string, out: Config, o: Obj)
    requires lead in conf && conf[lead] == out && out != map[] && Grown(conf, held)
    ensures Grown(conf, held[lead := Appended(out, o)]) && Richer(conf, held[lead := Appended(out, o)])
  {
    var k :| k in out;
    assert RicherAt(conf, held[lead := Appended(out, o)], lead, k);
  }

  lemma StepGrows(t: Table, g: Gathering, dn: string, hier: bool)
    requires Coupled(t, g) && dn !in t && Live(g.conf, dn) && GatherOne(t, g, dn, hier).Some?
    ensures var h := GatherOne(t, g, dn, hier).value;
      && Grown(g.conf, h.conf)
      && h.out != map[]
      && h.lead == (if g.out == map[] then Some(dn) else g.lead)
      && if (hier && !Barren(t, g.conf[dn])) || g.lead.Some?
         then Richer(g.conf, h.conf) else h.conf == g.conf
  {
    HeldIff(t, g.conf, dn, hier);
    hide Held;
    hide Nestable;
    hide Barren;
    hide Only;
    hide Richer;
    hide Grown;
    if g.out != map[] && g.lead.Some? {
      LeadGrows(g.conf, Held(t, g.conf, dn, hier), g.lead.value, g.out, Only(LookUp(t, g.conf, dn, hier).mo));
    }
  }

  /** The names a device added to a class exist only as its configurations. */
  predicate Unstored(t: Table, conf: Configs, adds: seq<string>)
  {
    forall i :: 0 <= i < |adds| ==> adds[i] !in t && Live(conf, adds[i])
  }

  /** No object that exists only as a configuration gets children or has others appended to it. */
  ghost predicate Quiet(t: Table, conf: Configs, stored: seq<string>, adds: seq<string>, hier: bool)
    requires Unstored(t, conf, adds)
  {
    && (stored != [] || |adds| <= 1)
    && (hier ==> forall i :: 0 <= i < |adds| ==> Barren(t, conf[adds[i]]))
  }

  lemma {:induction false} GatherGrows(t: Table, conf: Configs, stored: seq<string>, adds: seq<string>, name: string,
      hier: bool)
    requires Fits(t, conf) && AllOf(t, stored, name) && Unstored(t, conf, adds)
    requires Gather(t, conf, stored + adds, hier).Some?
    ensures var g := Gather(t, conf, stored + adds, hier).value;
      && Grown(conf, g.conf)
      && (g.out == map[] <==> stored == [] && adds == [])
      && g.lead == (if stored == [] && adds != [] then Some(adds[0]) else None)
      && if Quiet(t, conf, stored, adds, hier) then g.conf == conf else Richer(conf, g.conf)
    decreases |adds|
  {
    if adds == [] {
      assert stored + adds == stored;
      GatherStored(t, conf, stored, name, hier);
    } else {
      var n := |adds| - 1;
      var dns := stored + adds;
      assert dns[..|dns| - 1] == stored + adds[..n] && dns[|dns| - 1] == adds[n];
      GatherGrows(t, conf, stored, adds[..n], name, hier);
      GatherLast(t, conf, dns, hier);
      hide Gather;
      hide Richer;
      hide Grown;
      hide Quiet;
      hide Barren;
      hide AllOf;
      hide Fits;
      hide GatherOne;
      var g := Gather(t, conf, stored + adds[..n], hier).value;
      StepGrows(t, g, adds[n], hier);
      GrownThen(conf, g.conf, GatherOne(t, g, adds[n], hier).value.conf);
      QuietNext(t, conf, stored, adds, hier);
    }
  }

  lemma QuietNext(t: Table, conf: Configs, stored: seq<string>, adds: seq<string>, hier: bool)
    requires Unstored(t, conf, adds) && adds != []
    ensures var n := |adds| - 1;
      Quiet(t, conf, stored, adds, hier)
      <==> Quiet(t, conf, stored, adds[..n], hier) && (stored != [] || n == 0)
           && (hier ==> Barren(t, conf[adds[n]]))
  {
    hide Barren;
  }

  // ------------------------------------------------------- answers in full

  predicate AllLone(conf: Configs, adds: seq<string>)
  {
    forall i :: 0 <= i < |adds| ==> adds[i] in conf && Lone(conf[adds[i]])
  }

  ghost function Onlys(conf: Configs, adds: seq<string>): (os: seq<Obj>)
    requires AllLone(conf, adds)
    ensures |os| == |adds|
  {
    if adds == [] then []
    else
      var n := |adds| - 1;
      Onlys(conf, adds[..n]) + [Only(conf[adds[n]])]
  }

  ghost function Stretched(c: Config, os: seq<Obj>): Config
  {
    map k | k in c :: c[k] + os
  }

  /** A plain query lists the stored objects and then the added ones. */
  lemma {:induction false} GatherLists(t: Table, conf: Configs, stored: seq<string>, adds: seq<string>, name: string)
    requires Fits(t, conf) && AllOf(t, stored, name) && stored != []
    requires Unstored(t, conf, adds) && AllLone(conf, adds)
    ensures Gather(t, conf, stored + adds, false)
         == Some(Gathering(conf, map[name := Objs(t, conf, stored, false) + Onlys(conf, adds)], None))
    decreases |adds|
  {
    var os := Objs(t, conf, stored, false);
    hide Fits;
    hide Only;
    hide Objs;
    hide Shown;
    if adds == [] {
      assert stored + adds == stored && os + [] == os;
      GatherStored(t, conf, stored, name, false);
    } else {
      var n := |adds| - 1;
      var dns := stored + adds;
      assert dns[..|dns| - 1] == stored + adds[..n] && dns[|dns| - 1] == adds[n];
      GatherLists(t, conf, stored, adds[..n], name);
      GatherLast(t, conf, dns, false);
      hide AllOf;
      hide Gather;
      hide GatherOne;
      hide Lone;
      AddedNext(t, conf, adds[n], name, os + Onlys(conf, adds[..n]));
      OnlysNext(conf, adds, os);
      hide Onlys;
    }
  }

  lemma OnlysNext(conf: Configs, adds: seq<string>, os: seq<Obj>)
    requires AllLone(conf, adds) && adds != []
    ensures var n := |adds| - 1;
            os + Onlys(conf, adds[..n]) + [Only(conf[adds[n]])] == os + Onlys(conf, adds)
  {
    hide Only;
  }

  lemma AddedNext(t: Table, conf: Configs, dn: string, name: string, os: seq<Obj>)
    requires Fits(t, conf) && dn !in t && Live(conf, dn) && Lone(conf[dn])
    ensures GatherOne(t, Gathering(conf, map[name := os], None), dn, false)
         == Some(Gathering(conf, map[name := os + [Only(conf[dn])]], None))
  {
    hide Only;
    hide Lone;
    hide Fits;
    assert name in map[name := os];
    assert Appended(map[name := os], Only(conf[dn])) == map[name := os + [Only(conf[dn])]];
    assert conf[dn := conf[dn]] == conf;
  }

  /** With no stored object the first added one leads: the others are appended to its configuration. */
  lemma {:induction false} GatherStretches(t: Table, conf: Configs, adds: seq<string>)
    requires Fits(t, conf) && adds != [] && Unstored(t, conf, adds) && AllLone(conf, adds[1..]) && adds[0] !in adds[1..]
    ensures var out := Stretched(conf[adds[0]], Onlys(conf, adds[1..]));
            Gather(t, conf, adds, false) == Some(Gathering(conf[adds[0] := out], out, Some(adds[0])))
    decreases |adds|
  {
    var n := |adds| - 1;
    var lead := adds[0];
    hide Fits;
    hide Only;
    hide Shown;
    if n == 0 {
      assert adds == [lead];
      LeadAlone(t, conf, lead);
    } else {
      var head, rest := adds[..n], adds[1..];
      assert head[1..] == rest[..n - 1];
      assert adds[n] == rest[n - 1];
      GatherStretches(t, conf, head);
      GatherLast(t, conf, adds, false);
      hide Gather;
      hide Stretched;
      hide GatherOne;
      hide Lone;
      LeadNext(t, conf, lead, Onlys(conf, adds[1..][..n - 1]), adds[n]);
    }
  }

  lemma LeadAlone(t: Table, conf: Configs, lead: string)
    requires Fits(t, conf) && lead !in t && Live(conf, lead)
    ensures var out := Stretched(conf[lead], []);
            Gather(t, conf, [lead], false) == Some(Gathering(conf[lead := out], out, Some(lead)))
  {
    StretchedNone(conf[lead]);
    assert conf[lead := conf[lead]] == conf;
    assert [lead][..0] == [];
    hide Fits;
  }

  lemma LeadNext(t: Table, conf: Configs, lead: string, os: seq<Obj>, dn: string)
    requires Fits(t, conf) && lead !in t && Live(conf, lead) && dn !in t && Live(conf, dn) && Lone(conf[dn])
             && lead != dn
    ensures var out, out' := Stretched(conf[lead], os), Stretched(conf[lead], os + [Only(conf[dn])]);
            && Coupled(t, Gathering(conf[lead := out], out, Some(lead)))
            && GatherOne(t, Gathering(conf[lead := out], out, Some(lead)), dn, false)
               == Some(Gathering(conf[lead := out'], out', Some(lead)))
  {
    StretchedNext(conf[lead], os, Only(conf[dn]));
    hide Only;
    hide Lone;
    hide Stretched;
    var out := Stretched(conf[lead], os);
    var held := conf[lead := out];
    assert held[dn := held[dn]] == held;
    var out' := Stretched(conf[lead], os + [Only(conf[dn])]);
    assert held[lead := out'] == conf[lead := out'];
  }

  lemma StretchedNone(c: Config)
    ensures Stretched(c, []) == c
  {
    assert forall k :: k in c ==> c[k] + [] == c[k];
  }

  lemma StretchedNext(c: Config, os: seq<Obj>, o: Obj)
    ensures Appended(Stretched(c, os), o) == Stretched(c, os + [o])
    ensures c != map[] <==> Stretched(c, os) != map[]
  {
    assert forall k :: k in c ==> (c[k] + os) + [o] == c[k] + (os + [o]);
    assert Stretched(c, os).Keys == c.Keys;
    if c != map[] {
      assert c.Keys != {};
    }
  }
}
