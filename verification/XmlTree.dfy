/** Flattening a tree of managed objects into a table keyed by distinguished name, and
    what a prefix search on the names finds in it. */
module XmlTree {
  import opened Basics

  const DN := "-dn"
  const RN := "-rn"

  /** A parsed object: its class, its attributes and the objects nested in it, in the
      order in which the traversal meets them. */
  datatype Node = Node(name: string, attrs: map<string, string>, children: Children)
  datatype Children = End | Then(first: Node, rest: Children)

  /** What the table holds under one name: the object without what is nested in it. */
  datatype Entry = Entry(name: string, attrs: map<string, string>)

  type Table = map<string, Entry>

  // ------------------------------------------------------------- flattening

  /** The object's attributes once its own dn is known. */
  function Named(attrs: map<string, string>, parent: Option<map<string, string>>): map<string, string>
  {
    if parent.Some? && DN in parent.value && RN in attrs then attrs[DN := parent.value[DN] + "/" + attrs[RN]] else attrs
  }

  /** Add a dn to every object: the parent's dn, a slash and the object's rn. */
  function AddDn(n: Node, parent: Option<map<string, string>>): Node
  {
    var attrs := Named(n.attrs, parent);
    Node(n.name, attrs, AddDnAll(n.children, attrs))
  }

  function AddDnAll(c: Children, parent: map<string, string>): Children
  {
    match c
    case End => End
    case Then(n, rest) => Then(AddDn(n, Some(parent)), AddDnAll(rest, parent))
  }

  function Own(n: Node): Table
  {
    if DN in n.attrs then map[n.attrs[DN] := Entry(n.name, n.attrs)] else map[]
  }

  /** What writing n and everything nested in it puts in the table. */
  function Flat(n: Node): Table
  {
    Own(n) + FlatAll(n.children)
  }

  function FlatAll(c: Children): Table
  {
    match c
    case End => map[]
    case Then(n, rest) => Flat(n) + FlatAll(rest)
  }

  /** An object with an empty dn stops the writing. */
  predicate EmptyDn(n: Node)
  {
    (DN in n.attrs && n.attrs[DN] == "") || EmptyDnAmong(n.children)
  }

  predicate EmptyDnAmong(c: Children)
  {
    match c
    case End => false
    case Then(n, rest) => EmptyDn(n) || EmptyDnAmong(rest)
  }

  function Size(n: Node): nat
  {
    1 + SizeAll(n.children)
  }

  function SizeAll(c: Children): nat
  {
    match c
    case End => 0
    case Then(n, rest) => Size(n) + SizeAll(rest)
  }

  // ------------------------------------------------------------ proper trees

  function Rns(c: Children): set<string>
  {
    match c
    case End => {}
    case Then(n, rest) => (if RN in n.attrs then {n.attrs[RN]} else {}) + Rns(rest)
  }

  /** Every nested object has a slash-free rn, distinct from those of its siblings. */
  predicate Proper(n: Node)
  {
    ProperAll(n.children)
  }

  predicate ProperAll(c: Children)
  {
    match c
    case End => true
    case Then(n, rest) =>
      && RN in n.attrs && '/' !in n.attrs[RN] && n.attrs[RN] !in Rns(rest)
      && Proper(n) && ProperAll(rest)
  }

  /** A place in a tree: the rns met on the way down to it. */
  type Path = seq<string>

  function NodeAt(n: Node, p: Path): Option<Node>
  {
    if p == [] then Some(n) else NodeAmong(n.children, p)
  }

  function NodeAmong(c: Children, p: Path): Option<Node>
    requires p != []
  {
    match c
    case End => None
    case Then(n, rest) =>
      if RN in n.attrs && n.attrs[RN] == p[0] then NodeAt(n, p[1..]) else NodeAmong(rest, p)
  }

  /** The names on a path, each after a slash. */
  function Tail(p: Path): string
  {
    if p == [] then "" else "/" + p[0] + Tail(p[1..])
  }

  /** The dn of the place p below an object with dn d. */
  function Join(d: string, p: Path): string
  {
    d + Tail(p)
  }

  predicate SlashFree(p: Path)
  {
    forall i :: 0 <= i < |p| ==> '/' !in p[i]
  }

  lemma FirstSlash(a: string, b: string, x: string, y: string)
    requires '/' !in a && '/' !in b
    requires a + "/" + x <= b + "/" + y
    ensures a == b && x <= y
  {
    var s, t := a + "/" + x, b + "/" + y;
    assert s[|a|] == '/' == t[|b|] && s[|a|] == t[|a|];
    assert forall i :: 0 <= i < |a| ==> s[i] == a[i] != '/';
    assert forall i :: 0 <= i < |b| ==> t[i] == b[i] != '/';
    assert |a| == |b|;
    assert a == s[..|a|] && b == t[..|b|];
    assert x == s[|a| + 1..] && y == t[|b| + 1..];
  }

  lemma {:induction false} TailConcat(p: Path, q: Path)
    ensures Tail(p + q) == Tail(p) + Tail(q)
  {
    if p == [] {
      assert p + q == q;
    } else {
      assert (p + q)[1..] == p[1..] + q;
      TailConcat(p[1..], q);
    }
  }

  lemma TailExtends(p: Path, q: Path)
    requires p < q
    ensures Tail(p) + "/" <= Tail(q)
  {
  }

  /** Names closed with a slash are prefixes only when paths are. */
  lemma {:induction false} TailPrefix(p: Path, q: Path)
    requires SlashFree(p) && SlashFree(q)
    requires Tail(p) + "/" <= Tail(q) + "/"
    ensures p <= q
  {
    if p != [] {
      assert |Tail(p)| >= 1;
      if q != [] {
        TailUncons(p, q);
        TailPrefix(p[1..], q[1..]);
        assert p == [p[0]] + p[1..] && q == [q[0]] + q[1..];
      }
    }
  }

  lemma Slashed(t: string)
    requires t == "" || t[0] == '/'
    ensures t + "/" == "/" + (t + "/")[1..]
  {
  }

  lemma Regroup(a: string, t: string, x: string)
    requires t + "/" == "/" + x
    ensures "/" + a + t + "/" == "/" + (a + "/" + x)
  {
    calc {
      "/" + a + t + "/";
      "/" + a + (t + "/");
      "/" + a + ("/" + x);
      "/" + (a + "/" + x);
    }
  }

  lemma TailUncons(p: Path, q: Path)
    requires p != [] && q != [] && SlashFree(p) && SlashFree(q)
    requires Tail(p) + "/" <= Tail(q) + "/"
    ensures p[0] == q[0] && Tail(p[1..]) + "/" <= Tail(q[1..]) + "/"
  {
    var a, b, t, u := p[0], q[0], Tail(p[1..]), Tail(q[1..]);
    Slashed(t);
    Slashed(u);
    assert Tail(p) == "/" + a + t && Tail(q) == "/" + b + u;
    hide Tail;
    var x, y := (t + "/")[1..], (u + "/")[1..];
    Regroup(a, t, x);
    Regroup(b, u, y);
    Unprefix("/", a + "/" + x, b + "/" + y);
    FirstSlash(a, b, x, y);
    Unprefix("/", x, y);
  }

  lemma Unprefix(d: string, x: string, y: string)
    ensures d + x <= d + y <==> x <= y
  {
    if d + x <= d + y {
      assert x == (d + x)[|d|..] && y == (d + y)[|d|..];
      forall i | 0 <= i < |x|
        ensures x[i] == y[i]
      {
        assert x[i] == (d + x)[|d| + i] && y[i] == (d + y)[|d| + i];
      }
    }
  }

  /** A search for names that start with the dn of p and a slash finds the name of q exactly
      when q is strictly below p. */
  lemma JoinOrder(d: string, p: Path, q: Path)
    requires SlashFree(p) && SlashFree(q)
    ensures Join(d, p) + "/" <= Join(d, q) <==> p < q
  {
    assert Join(d, p) + "/" == d + (Tail(p) + "/");
    Unprefix(d, Tail(p) + "/", Tail(q));
    if p < q {
      TailExtends(p, q);
    }
    if Tail(p) + "/" <= Tail(q) {
      assert Tail(p) + "/" <= Tail(q) + "/";
      TailPrefix(p, q);
      assert p < q || p == q;
    }
  }

  /** Different places have different names. */
  lemma JoinInjective(d: string, p: Path, q: Path)
    requires SlashFree(p) && SlashFree(q) && Join(d, p) == Join(d, q)
    ensures p == q
  {
    assert Tail(p) == Join(d, p)[|d|..] == Join(d, q)[|d|..] == Tail(q);
    TailPrefix(p, q);
    TailPrefix(q, p);
  }

  // ---------------------------------------------------- what the table holds

  lemma {:induction false} AmongRns(c: Children, p: Path)
    requires p != [] && NodeAmong(c, p).Some?
    ensures p[0] in Rns(c)
  {
    match c
    case Then(n, rest) =>
      if !(RN in n.attrs && n.attrs[RN] == p[0]) {
        AmongRns(rest, p);
      }
  }

  lemma JoinHead(d: string, r: string, q: Path)
    ensures Join(d + "/" + r, q) == Join(d, [r] + q)
  {
  }

  /** The dn given to a nested object. */
  lemma NestedDn(n: Node, parent: map<string, string>)
    requires DN in parent && RN in n.attrs
    ensures var m := AddDn(n, Some(parent)); DN in m.attrs && m.attrs[DN] == parent[DN] + "/" + n.attrs[RN]
  {
  }

  /** Every name in the table is the dn of a place in the tree. */
  lemma {:induction false} FlatKeys(n: Node, parent: Option<map<string, string>>, k: string) returns (p: Path)
    requires Proper(n) && DN in AddDn(n, parent).attrs && k in Flat(AddDn(n, parent))
    ensures SlashFree(p) && NodeAt(n, p).Some? && k == Join(AddDn(n, parent).attrs[DN], p)
    decreases n
  {
    var m := AddDn(n, parent);
    if k in FlatAll(m.children) {
      p := FlatAllKeys(n.children, m.attrs, k);
    } else {
      p := [];
    }
  }

  lemma {:induction false} FlatAllKeys(c: Children, parent: map<string, string>, k: string) returns (p: Path)
    requires ProperAll(c) && DN in parent && k in FlatAll(AddDnAll(c, parent))
    ensures p != [] && SlashFree(p) && NodeAmong(c, p).Some? && k == Join(parent[DN], p)
    decreases c
  {
    match c
    case Then(n, rest) =>
      if k in FlatAll(AddDnAll(rest, parent)) {
        p := FlatAllKeys(rest, parent, k);
        AmongRns(rest, p);
      } else {
        NestedDn(n, parent);
        var q := FlatKeys(n, Some(parent), k);
        JoinHead(parent[DN], n.attrs[RN], q);
        p := [n.attrs[RN]] + q;
        assert p[1..] == q;
      }
  }

  /** The entry of the place p: its object, under its path. */
  function Stored(x: Node, dn: string): Entry
  {
    Entry(x.name, x.attrs[DN := dn])
  }

  /** Every place of the tree has its entry, and none is overwritten by another. */
  lemma {:induction false} FlatAt(n: Node, parent: Option<map<string, string>>, p: Path)
    requires Proper(n) && DN in AddDn(n, parent).attrs && NodeAt(n, p).Some?
    ensures var m := AddDn(n, parent);
            var dn := Join(m.attrs[DN], p);
            SlashFree(p) && dn in Flat(m) && Flat(m)[dn] == Stored(NodeAt(n, p).value, dn)
    decreases n
  {
    var m := AddDn(n, parent);
    var d := m.attrs[DN];
    if p == [] {
      assert Join(d, []) == d && m.attrs == n.attrs[DN := d];
      if d in FlatAll(m.children) {
        var q := FlatAllKeys(n.children, m.attrs, d);
        JoinInjective(d, [], q);
      }
    } else {
      FlatAllAt(n.children, m.attrs, p);
    }
  }

  lemma {:induction false} FlatAllAt(c: Children, parent: map<string, string>, p: Path)
    requires ProperAll(c) && DN in parent && p != [] && NodeAmong(c, p).Some?
    ensures var t, dn := FlatAll(AddDnAll(c, parent)), Join(parent[DN], p);
            SlashFree(p) && dn in t && t[dn] == Stored(NodeAmong(c, p).value, dn)
    decreases c
  {
    match c
    case Then(n, rest) =>
      if n.attrs[RN] == p[0] {
        NestedDn(n, parent);
        FlatAt(n, Some(parent), p[1..]);
        JoinHead(parent[DN], p[0], p[1..]);
        assert p == [p[0]] + p[1..];
        assert SlashFree(p);
        NotAmong(rest, parent, p);
        assert FlatAll(AddDnAll(c, parent)) == Flat(AddDn(n, Some(parent))) + FlatAll(AddDnAll(rest, parent));
      } else {
        FlatAllAt(rest, parent, p);
      }
  }

  /** A path through another sibling names nothing stored by c. */
  lemma NotAmong(c: Children, parent: map<string, string>, p: Path)
    requires ProperAll(c) && DN in parent && p != [] && SlashFree(p) && p[0] !in Rns(c)
    ensures Join(parent[DN], p) !in FlatAll(AddDnAll(c, parent))
  {
    var k := Join(parent[DN], p);
    if k in FlatAll(AddDnAll(c, parent)) {
      var q := FlatAllKeys(c, parent, k);
      JoinInjective(parent[DN], p, q);
      AmongRns(c, q);
    }
  }

  lemma DisjointSum<K, V>(a: map<K, V>, b: map<K, V>)
    requires a.Keys !! b.Keys
    ensures |a + b| == |a| + |b|
  {
  }

  /** The table has exactly one entry per object. */
  lemma {:induction false} FlatSize(n: Node, parent: Option<map<string, string>>)
    requires Proper(n) && DN in AddDn(n, parent).attrs
    ensures |Flat(AddDn(n, parent))| == Size(n)
    decreases n
  {
    var m := AddDn(n, parent);
    var d := m.attrs[DN];
    FlatAllSize(n.children, m.attrs);
    if d in FlatAll(m.children) {
      var q := FlatAllKeys(n.children, m.attrs, d);
      JoinInjective(d, [], q);
    }
    DisjointSum(Own(m), FlatAll(m.children));
  }

  /** Siblings and what is nested in them share no name. */
  lemma SiblingsDisjoint(n: Node, rest: Children, parent: map<string, string>)
    requires ProperAll(Then(n, rest)) && DN in parent
    ensures Flat(AddDn(n, Some(parent))).Keys !! FlatAll(AddDnAll(rest, parent)).Keys
  {
    var a, b := Flat(AddDn(n, Some(parent))), FlatAll(AddDnAll(rest, parent));
    forall k | k in a
      ensures k !in b
    {
      NestedDn(n, parent);
      var q := FlatKeys(n, Some(parent), k);
      var p := [n.attrs[RN]] + q;
      JoinHead(parent[DN], n.attrs[RN], q);
      assert SlashFree(p);
      NotAmong(rest, parent, p);
    }
  }

  lemma {:induction false} FlatAllSize(c: Children, parent: map<string, string>)
    requires ProperAll(c) && DN in parent
    ensures |FlatAll(AddDnAll(c, parent))| == SizeAll(c)
    decreases c
  {
    match c
    case End =>
    case Then(n, rest) =>
      NestedDn(n, parent);
      FlatSize(n, Some(parent));
      FlatAllSize(rest, parent);
      SiblingsDisjoint(n, rest, parent);
      DisjointSum(Flat(AddDn(n, Some(parent))), FlatAll(AddDnAll(rest, parent)));
  }

  /** Writing a proper tree whose root has a non-empty dn never meets an empty one. */
  lemma {:induction false} NoEmptyDn(n: Node, parent: Option<map<string, string>>)
    requires Proper(n)
    requires var m := AddDn(n, parent); DN in m.attrs && m.attrs[DN] != ""
    ensures !EmptyDn(AddDn(n, parent))
    decreases n
  {
    NoEmptyDnAmong(n.children, AddDn(n, parent).attrs);
  }

  lemma {:induction false} NoEmptyDnAmong(c: Children, parent: map<string, string>)
    requires ProperAll(c) && DN in parent
    ensures !EmptyDnAmong(AddDnAll(c, parent))
    decreases c
  {
    match c
    case End =>
    case Then(n, rest) =>
      NestedDn(n, parent);
      NoEmptyDn(n, Some(parent));
      NoEmptyDnAmong(rest, parent);
  }

  /** The table written for a tree whose root carries its dn. */
  function Flattened(root: Node): Table
  {
    Flat(AddDn(root, None))
  }

  function DnAt(root: Node, p: Path): string
    requires DN in root.attrs
  {
    Join(root.attrs[DN], p)
  }

  /** One entry per object, each under the dn of its place. */
  lemma FlattenedAt(root: Node, p: Path)
    requires Proper(root) && DN in root.attrs && NodeAt(root, p).Some?
    ensures SlashFree(p) && DnAt(root, p) in Flattened(root)
    ensures Flattened(root)[DnAt(root, p)] == Stored(NodeAt(root, p).value, DnAt(root, p))
    ensures |Flattened(root)| == Size(root)
  {
    FlatAt(root, None, p);
    FlatSize(root, None);
  }

  lemma FlattenedName(root: Node, k: string) returns (p: Path)
    requires Proper(root) && DN in root.attrs && k in Flattened(root)
    ensures SlashFree(p) && NodeAt(root, p).Some? && k == DnAt(root, p)
  {
    p := FlatKeys(root, None, k);
  }

  lemma DnOrder(root: Node, p: Path, q: Path)
    requires DN in root.attrs && SlashFree(p) && SlashFree(q)
    ensures DnAt(root, p) + "/" <= DnAt(root, q) <==> p < q
  {
    JoinOrder(root.attrs[DN], p, q);
  }

  /** For a proper tree whose root has a dn, the names that start with a stored dn and a slash
      are exactly those of the objects strictly below it. */
  lemma PrefixSearchFindsDescendants(root: Node, p: Path, k: string)
    requires Proper(root) && DN in root.attrs && NodeAt(root, p).Some?
    ensures k in Flattened(root) && DnAt(root, p) + "/" <= k
            <==> exists q: Path :: p < q && NodeAt(root, q).Some? && k == DnAt(root, q)
  {
    hide Flattened;
    hide DnAt;
    FlattenedAt(root, p);
    if k in Flattened(root) && DnAt(root, p) + "/" <= k {
      var q := FlattenedName(root, k);
      DnOrder(root, p, q);
    }
    if q: Path :| p < q && NodeAt(root, q).Some? && k == DnAt(root, q) {
      FlattenedAt(root, q);
      DnOrder(root, p, q);
    }
  }
}
