/** Looking up objects in the table of a device: prefix search, configuration overlays and
    recursive resolution of children. */
module XmlStore {
  import opened Basics
  import opened Sorting
  import opened XmlTree
  import Text

  /** An object with what was nested in it, in the order in which it was appended. */
  datatype Obj = Obj(entry: Entry, nested: seq<Obj>)

  /** Objects by class: a configuration, or the answer to a query. */
  type Config = map<string, seq<Obj>>

  /** What a device has configured, by dn. */
  type Configs = map<string, Config>

  /** A configuration written without an object is nil and taken for none. */
  predicate Live(conf: Configs, k: string)
  {
    k in conf && conf[k] != map[]
  }

  /** Stored names strictly below dn. */
  function Below(t: Table, dn: string): set<string>
  {
    set k | k in t && dn + "/" <= k
  }

  /** Every entry carries its own name as dn. */
  ghost predicate Keyed(t: Table)
  {
    forall k :: k in t ==> DN in t[k].attrs && t[k].attrs[DN] == k
  }

  /** A list of objects that is one object, which repeats the dn k if it gives any. */
  predicate Overlay(k: string, os: seq<Obj>)
  {
    |os| == 1 && (DN in os[0].entry.attrs ==> os[0].entry.attrs[DN] == k)
  }

  /** A configuration of a stored object has one of the class it is stored with and gives it no other dn. */
  ghost predicate Fits(t: Table, conf: Configs)
  {
    forall k :: k in t && Live(conf, k) ==> t[k].name in conf[k] && Overlay(k, conf[k][t[k].name])
  }

  /** A stored object with the device's configuration applied. */
  function Shown(t: Table, conf: Configs, k: string): (e: Entry)
    requires Fits(t, conf) && k in t
    ensures e.name == t[k].name
    ensures Keyed(t) ==> DN in e.attrs && e.attrs[DN] == k
  {
    if Live(conf, k) then Entry(t[k].name, t[k].attrs + conf[k][t[k].name][0].entry.attrs) else t[k]
  }

  /** What the device's configuration of a stored object nests in it. */
  function Given(t: Table, conf: Configs, k: string): seq<Obj>
    requires Fits(t, conf) && k in t
  {
    if Live(conf, k) then conf[k][t[k].name][0].nested else []
  }

  lemma BelowTransitive(t: Table, dn: string, k: string, m: string)
    requires dn + "/" <= k && k + "/" <= m
    ensures dn + "/" <= m
  {
  }

  /** Each recursive resolution has strictly fewer names below it. */
  lemma BelowShrinks(t: Table, dn: string, k: string)
    requires k in Below(t, dn)
    ensures Below(t, k) < Below(t, dn)
    ensures |Below(t, k)| < |Below(t, dn)|
  {
    forall m | m in Below(t, k)
      ensures m in Below(t, dn)
    {
      BelowTransitive(t, dn, k, m);
    }
    assert k !in Below(t, k);
    assert Below(t, dn) == Below(t, k) + (Below(t, dn) - Below(t, k));
    assert k in Below(t, dn) - Below(t, k);
  }

  /** dn with what its configuration nests in it, then everything stored below it, each such
      object itself resolved the same way. */
  ghost function Resolved(t: Table, conf: Configs, dn: string): Obj
    requires Fits(t, conf) && dn in t
    decreases |Below(t, dn)|, 1, 0
  {
    Obj(Shown(t, conf, dn), Given(t, conf, dn) + ResolvedAll(t, conf, dn, Ordered(Below(t, dn))))
  }

  ghost function ResolvedAll(t: Table, conf: Configs, dn: string, ks: seq<string>): seq<Obj>
    requires Fits(t, conf) && forall k :: k in ks ==> k in Below(t, dn)
    decreases |Below(t, dn)|, 0, |ks|
  {
    if ks == [] then []
    else
      var n := |ks| - 1;
      BelowShrinks(t, dn, ks[n]);
      ResolvedAll(t, conf, dn, ks[..n]) + [Resolved(t, conf, ks[n])]
  }

  /** The entries of a list of objects and of everything nested in them. */
  ghost function Inside(os: seq<Obj>): set<Entry>
  {
    if os == [] then {}
    else var n := |os| - 1; Inside(os[..n]) + {os[n].entry} + Inside(os[n].nested)
  }

  /** What NestedAreDescendants says is nested: a stored object below dn, or something that a
      configuration nests in dn or in one of those. */
  ghost predicate BelowOrGiven(t: Table, conf: Configs, dn: string, e: Entry)
    requires Fits(t, conf)
  {
    exists k :: k in Below(t, dn) && (e == Shown(t, conf, k) || e in Inside(Given(t, conf, k)))
  }

  /** Nested in a resolved object, at any depth, are exactly the stored objects below it, each
      with its configuration applied, and what configurations nest in it and in those. */
  lemma {:induction false} NestedAreDescendants(t: Table, conf: Configs, dn: string, e: Entry)
    requires Fits(t, conf) && dn in t
    ensures e in Inside(Resolved(t, conf, dn).nested)
            <==> e in Inside(Given(t, conf, dn)) || BelowOrGiven(t, conf, dn, e)
    decreases |Below(t, dn)|, 1, 0
  {
    var ks := Ordered(Below(t, dn));
    NestedIn(t, conf, dn, ks, e);
    InsideConcat(Given(t, conf, dn), ResolvedAll(t, conf, dn, ks));
    if BelowOrGiven(t, conf, dn, e) {
      var k :| k in Below(t, dn) && (e == Shown(t, conf, k) || e in Inside(Given(t, conf, k)));
      assert k in ks;
    }
  }

  lemma {:induction false} NestedIn(t: Table, conf: Configs, dn: string, ks: seq<string>, e: Entry)
    requires Fits(t, conf) && forall k :: k in ks ==> k in Below(t, dn)
    ensures e in Inside(ResolvedAll(t, conf, dn, ks)) ==> BelowOrGiven(t, conf, dn, e)
    ensures forall k :: k in ks && (e == Shown(t, conf, k) || e in Inside(Given(t, conf, k)))
              ==> e in Inside(ResolvedAll(t, conf, dn, ks))
    decreases |Below(t, dn)|, 0, |ks|
  {
    if ks != [] {
      hide BelowOrGiven;
      hide Inside;
      hide Shown;
      hide Given;
      hide Fits;
      var n := |ks| - 1;
      var k, head := ks[n], ks[..n];
      assert ks == head + [k] && k in ks;
      BelowShrinks(t, dn, k);
      NestedIn(t, conf, dn, head, e);
      NestedAreDescendants(t, conf, k, e);
      BelowOrGivenBelow(t, conf, dn, k, e);
      InsideNext(ResolvedAll(t, conf, dn, head), Resolved(t, conf, k));
      assert ResolvedAll(t, conf, dn, ks) == ResolvedAll(t, conf, dn, head) + [Resolved(t, conf, k)];
      assert Resolved(t, conf, k).entry == Shown(t, conf, k);
      hide ResolvedAll;
      hide Below;
    } else {
      InsideNone();
    }
  }

  lemma BelowOrGivenBelow(t: Table, conf: Configs, dn: string, k: string, e: Entry)
    requires Fits(t, conf) && k in Below(t, dn)
    ensures e == Shown(t, conf, k) || e in Inside(Given(t, conf, k)) || BelowOrGiven(t, conf, k, e)
            ==> BelowOrGiven(t, conf, dn, e)
  {
    if BelowOrGiven(t, conf, k, e) {
      var m :| m in Below(t, k) && (e == Shown(t, conf, m) || e in Inside(Given(t, conf, m)));
      BelowTransitive(t, dn, k, m);
      assert m in Below(t, dn);
    }
  }

  lemma {:induction false} InsideConcat(os: seq<Obj>, more: seq<Obj>)
    ensures Inside(os + more) == Inside(os) + Inside(more)
  {
    if more == [] {
      assert os + more == os;
    } else {
      var n := |more| - 1;
      InsideConcat(os, more[..n]);
      InsideNext(os + more[..n], more[n]);
      assert os + more == os + more[..n] + [more[n]];
    }
  }

  lemma InsideNone()
    ensures Inside([]) == {}
  {
  }

  lemma InsideNext(os: seq<Obj>, o: Obj)
    ensures Inside(os + [o]) == Inside(os) + {o.entry} + Inside(o.nested)
  {
  }

  // ------------------------------------------------- how often a name repeats

  /** Stored names strictly between dn and k. */
  function Between(t: Table, dn: string, k: string): set<string>
  {
    set m | m in t && dn + "/" <= m && m + "/" <= k
  }

  function Pow2(n: nat): nat
  {
    if n == 0 then 1 else 2 * Pow2(n - 1)
  }

  function Once(o: Obj, k: string): nat
  {
    if DN in o.entry.attrs && o.entry.attrs[DN] == k then 1 else 0
  }

  /** How often an object with dn k occurs in a list of objects, at any depth. */
  ghost function Times(os: seq<Obj>, k: string): nat
  {
    if os == [] then 0
    else
      var n := |os| - 1;
      Times(os[..n], k) + Once(os[n], k) + Times(os[n].nested, k)
  }

  lemma TimesNext(os: seq<Obj>, o: Obj, k: string)
    ensures Times(os + [o], k)
         == Times(os, k) + Once(o, k) + Times(o.nested, k)
  {
  }

  lemma {:induction false} TimesConcat(os: seq<Obj>, more: seq<Obj>, k: string)
    ensures Times(os + more, k) == Times(os, k) + Times(more, k)
  {
    if more == [] {
      assert os + more == os;
    } else {
      var n := |more| - 1;
      hide Times;
      hide Once;
      var head, last := more[..n], more[n];
      assert more == head + [last];
      TimesConcat(os, head, k);
      TimesNext(head, last, k);
      assert os + (head + [last]) == (os + head) + [last];
      TimesNext(os + head, last, k);
    }
  }

  /** No configuration nests an object named k in a stored one. */
  ghost predicate NotGiven(t: Table, conf: Configs, k: string)
    requires Fits(t, conf)
  {
    forall m :: m in t ==> Times(Given(t, conf, m), k) == 0
  }

  function Members(ks: seq<string>): set<string>
  {
    set k | k in ks
  }

  lemma Comparable(j: string, m: string, k: string)
    requires j + "/" <= k && m + "/" <= k && j != m
    ensures j + "/" <= m || m + "/" <= j
  {
    assert j == k[..|j|] && j + "/" == k[..|j| + 1];
    assert m == k[..|m|] && m + "/" == k[..|m| + 1];
    if |j| < |m| {
      assert k[..|j| + 1] == m[..|j| + 1];
    } else if |m| < |j| {
      assert k[..|m| + 1] == j[..|m| + 1];
    }
  }

  lemma PrefixNotAfter(j: string, m: string)
    requires j + "/" <= m
    ensures !Text.Less(m, j) && j != m
  {
  }

  /** The stored names on the way down to k come in the order of the listing: those strictly
      between the next one and k are the ones not listed yet. */
  lemma ChainNext(t: Table, dn: string, k: string, ks: seq<string>, i: nat)
    requires Lists(ks, Below(t, dn)) && Ascending(ks) && i < |ks| && ks[i] in Between(t, dn, k)
    ensures Between(t, ks[i], k) == Between(t, dn, k) - Members(ks[..i + 1])
  {
    var j, b, seen := ks[i], Between(t, dn, k), Members(ks[..i + 1]);
    forall m
      ensures m in Between(t, j, k) <==> m in b - seen
    {
      if m in Between(t, j, k) {
        BelowTransitive(t, dn, j, m);
        PrefixNotAfter(j, m);
      }
      if m in b - seen {
        assert m in Below(t, dn) && ks == ks[..i + 1] + ks[i + 1..];
        var a :| 0 <= a < |ks| - i - 1 && ks[i + 1..][a] == m;
        assert Text.Less(ks[i], ks[i + 1 + a]);
        Text.LessTotal(j, m);
        Comparable(j, m, k);
        if m + "/" <= j {
          PrefixNotAfter(m, j);
        }
      }
    }
  }

  /** What the first i children contribute: the power for all names between dn and k, less the
      power for those still to come. */
  lemma {:induction false} TimesUpTo(t: Table, conf: Configs, dn: string, i: nat, k: string)
    requires Keyed(t) && Fits(t, conf) && NotGiven(t, conf, k) && dn in t && i <= |Ordered(Below(t, dn))|
    ensures var ks := Ordered(Below(t, dn));
            var now := Times(ResolvedAll(t, conf, dn, ks[..i]), k);
            if k in Below(t, dn) then
              now + Pow2(|Between(t, dn, k) - Members(ks[..i])|)
              == Pow2(|Between(t, dn, k)|) + (if k in ks[..i] then 1 else 0)
            else now == 0
    decreases |Below(t, dn)|, 0, i
  {
    var ks := Ordered(Below(t, dn));
    var b := Between(t, dn, k);
    if i == 0 {
      assert b - Members(ks[..0]) == b;
    } else {
      var n: nat := i - 1;
      TimesUpTo(t, conf, dn, n, k);
      TimesStep(t, conf, dn, n, k);
      if k in Below(t, dn) {
        LeftStep(t, dn, ks, n, k);
      } else if k in Below(t, ks[n]) {
        BetweenIff(t, dn, ks[n], k);
      }
    }
  }

  lemma TimesStep(t: Table, conf: Configs, dn: string, n: nat, k: string)
    requires Keyed(t) && Fits(t, conf) && NotGiven(t, conf, k) && dn in t && n < |Ordered(Below(t, dn))|
    ensures var ks := Ordered(Below(t, dn));
            Times(ResolvedAll(t, conf, dn, ks[..n + 1]), k)
            == Times(ResolvedAll(t, conf, dn, ks[..n]), k)
               + (if ks[n] == k then 1 else 0) + (if k in Below(t, ks[n]) then Pow2(|Between(t, ks[n], k)|) else 0)
    decreases |Below(t, dn)|, 0, n
  {
    var ks := Ordered(Below(t, dn));
    var j := ks[n];
    assert ks[..n + 1][..n] == ks[..n] && j in ks;
    BelowShrinks(t, dn, j);
    RepeatsDouble(t, conf, j, k);
    TimesNext(ResolvedAll(t, conf, dn, ks[..n]), Resolved(t, conf, j), k);
    hide Times;
  }

  /** Listing one more name halves what is left exactly when the name lies between dn and k. */
  lemma LeftStep(t: Table, dn: string, ks: seq<string>, n: nat, k: string)
    requires Lists(ks, Below(t, dn)) && Ascending(ks) && n < |ks| && k in Below(t, dn)
    ensures var b := Between(t, dn, k);
            Pow2(|b - Members(ks[..n])|)
            == Pow2(|b - Members(ks[..n + 1])|) + (if k in Below(t, ks[n]) then Pow2(|Between(t, ks[n], k)|) else 0)
    ensures k in ks[..n + 1] <==> k in ks[..n] || k == ks[n]
    ensures k == ks[n] ==> k !in ks[..n]
  {
    assert ks[..n + 1] == ks[..n] + [ks[n]] && ks[n] in ks;
    MembersNext(Between(t, dn, k), ks, n);
    BetweenIff(t, dn, ks[n], k);
    if k in Below(t, ks[n]) {
      ChainNext(t, dn, k, ks, n);
    }
  }

  lemma BetweenIff(t: Table, dn: string, j: string, k: string)
    requires j in Below(t, dn)
    ensures k in Below(t, j) ==> k in Below(t, dn)
    ensures k in Below(t, dn) ==> (k in Below(t, j) <==> j in Between(t, dn, k))
    ensures j == k ==> j !in Between(t, dn, k)
  {
  }

  lemma MembersNext(b: set<string>, ks: seq<string>, n: nat)
    requires n < |ks| && forall i, j :: 0 <= i < j < |ks| ==> ks[i] != ks[j]
    ensures ks[n] in b ==> |b - Members(ks[..n])| == |b - Members(ks[..n + 1])| + 1
    ensures ks[n] !in b ==> b - Members(ks[..n + 1]) == b - Members(ks[..n])
    ensures ks[n] !in ks[..n]
  {
    assert ks[..n + 1] == ks[..n] + [ks[n]];
    assert Members(ks[..n + 1]) == Members(ks[..n]) + {ks[n]};
    if ks[n] in b {
      assert b - Members(ks[..n]) == b - Members(ks[..n + 1]) + {ks[n]};
    }
  }

  /** An object below dn that no configuration nests is nested once for every way down to it
      through stored objects: twice as often for each stored name between them. */
  lemma {:induction false} RepeatsDouble(t: Table, conf: Configs, dn: string, k: string)
    requires Keyed(t) && Fits(t, conf) && NotGiven(t, conf, k) && dn in t
    ensures Times(Resolved(t, conf, dn).nested, k) == if k in Below(t, dn) then Pow2(|Between(t, dn, k)|) else 0
    decreases |Below(t, dn)|, 1, 0
  {
    hide Times;
    hide Between;
    hide Below;
    hide Given;
    hide Fits;
    hide Keyed;
    hide Shown;
    var ks := Ordered(Below(t, dn));
    TimesUpTo(t, conf, dn, |ks|, k);
    assert ks[..|ks|] == ks;
    TimesConcat(Given(t, conf, dn), ResolvedAll(t, conf, dn, ks), k);
    AllListed(t, dn, ks, k);
    hide ResolvedAll;
  }

  lemma AllListed(t: Table, dn: string, ks: seq<string>, k: string)
    requires Lists(ks, Below(t, dn))
    ensures Between(t, dn, k) - Members(ks) == {}
    ensures k in ks <==> k in Below(t, dn)
  {
  }

  // ------------------------------------------------------ flattened trees

  /** Flattening keys every entry by its own dn. */
  lemma FlattenedKeyed(root: Node)
    requires Proper(root) && DN in root.attrs
    ensures Keyed(Flattened(root))
  {
    forall k | k in Flattened(root)
      ensures DN in Flattened(root)[k].attrs && Flattened(root)[k].attrs[DN] == k
    {
      var p := FlattenedName(root, k);
      FlattenedAt(root, p);
    }
  }

  lemma {:induction false} AncestorAt(n: Node, q: Path, i: nat)
    requires i <= |q| && NodeAt(n, q).Some?
    ensures NodeAt(n, q[..i]).Some?
    decreases n
  {
    if i != 0 {
      AncestorAmong(n.children, q, i);
    }
  }

  lemma {:induction false} AncestorAmong(c: Children, q: Path, i: nat)
    requires 0 < i <= |q| && NodeAmong(c, q).Some?
    ensures NodeAmong(c, q[..i]).Some?
    decreases c
  {
    match c
    case Then(n, rest) =>
      if RN in n.attrs && n.attrs[RN] == q[0] {
        AncestorAt(n, q[1..], i - 1);
        assert q[..i][1..] == q[1..][..i - 1];
      } else {
        AncestorAmong(rest, q, i);
      }
  }

  /** The names of the places above q at depths lo up to but not including hi. */
  function Lineage(root: Node, q: Path, lo: nat, hi: nat): set<string>
    requires DN in root.attrs && hi <= |q| + 1
    decreases hi
  {
    if hi <= lo then {} else Lineage(root, q, lo, hi - 1) + {DnAt(root, q[..hi - 1])}
  }

  lemma {:induction false} LineageMembers(root: Node, q: Path, lo: nat, hi: nat, m: string) returns (i: nat)
    requires DN in root.attrs && lo <= hi <= |q|
    ensures m in Lineage(root, q, lo, hi) ==> lo <= i < hi && m == DnAt(root, q[..i])
    ensures forall j :: lo <= j < hi ==> DnAt(root, q[..j]) in Lineage(root, q, lo, hi)
    decreases hi
  {
    hide DnAt;
    i := 0;
    if lo < hi {
      i := LineageMembers(root, q, lo, hi - 1, m);
      if m == DnAt(root, q[..hi - 1]) { i := hi - 1; }
    }
  }

  lemma {:induction false} LineageCount(root: Node, q: Path, lo: nat, hi: nat)
    requires DN in root.attrs && lo <= hi <= |q| && SlashFree(q)
    ensures |Lineage(root, q, lo, hi)| == hi - lo
    decreases hi
  {
    if lo < hi {
      LineageCount(root, q, lo, hi - 1);
      var last := DnAt(root, q[..hi - 1]);
      var i := LineageMembers(root, q, lo, hi - 1, last);
      if last in Lineage(root, q, lo, hi - 1) {
        JoinInjective(root.attrs[DN], q[..hi - 1], q[..i]);
      }
    }
  }

  /** In a flattened tree the names between those of p and q are those of the places between. */
  lemma BetweenMember(root: Node, p: Path, q: Path, m: string)
    requires Proper(root) && DN in root.attrs && p < q && NodeAt(root, q).Some? && SlashFree(q)
    ensures m in Between(Flattened(root), DnAt(root, p), DnAt(root, q)) <==> m in Lineage(root, q, |p| + 1, |q|)
  {
    hide Flattened;
    hide DnAt;
    hide Lineage;
    if m in Between(Flattened(root), DnAt(root, p), DnAt(root, q)) {
      var r := FlattenedName(root, m);
      DnOrder(root, p, r);
      DnOrder(root, r, q);
      assert r == q[..|r|];
      var i := LineageMembers(root, q, |p| + 1, |q|, m);
    }
    var j := LineageMembers(root, q, |p| + 1, |q|, m);
    if m in Lineage(root, q, |p| + 1, |q|) {
      AncestorAt(root, q, j);
      FlattenedAt(root, q[..j]);
      DnOrder(root, p, q[..j]);
      DnOrder(root, q[..j], q);
    }
  }

  lemma BetweenCount(root: Node, p: Path, q: Path)
    requires Proper(root) && DN in root.attrs && p < q && NodeAt(root, q).Some? && SlashFree(q)
    ensures |Between(Flattened(root), DnAt(root, p), DnAt(root, q))| == |q| - |p| - 1
  {
    var between, line := Between(Flattened(root), DnAt(root, p), DnAt(root, q)), Lineage(root, q, |p| + 1, |q|);
    forall m
      ensures m in between <==> m in line
    {
      BetweenMember(root, p, q, m);
    }
    assert between == line;
    LineageCount(root, q, |p| + 1, |q|);
  }

  /** Resolving an object of a flattened tree with its children nests a descendant n levels
      down exactly 2 to the power n - 1 times. */
  lemma {:induction false} DescendantsRepeat(root: Node, conf: Configs, p: Path, q: Path)
    requires Proper(root) && DN in root.attrs && p < q && NodeAt(root, q).Some?
    requires Fits(Flattened(root), conf) && NotGiven(Flattened(root), conf, DnAt(root, q))
    ensures DnAt(root, p) in Flattened(root)
    ensures Times(Resolved(Flattened(root), conf, DnAt(root, p)).nested, DnAt(root, q)) == Pow2(|q| - |p| - 1)
  {
    hide Flattened;
    hide DnAt;
    hide Times;
    hide Resolved;
    hide Between;
    hide Pow2;
    hide Proper;
    hide Fits;
    hide NotGiven;
    hide Keyed;
    hide NodeAt;
    FlattenedKeyed(root);
    AncestorAt(root, q, |p|);
    assert q[..|p|] == p;
    FlattenedAt(root, p);
    FlattenedAt(root, q);
    DnOrder(root, p, q);
    BetweenCount(root, p, q);
    RepeatsDouble(Flattened(root), conf, DnAt(root, p), DnAt(root, q));
  }
}
