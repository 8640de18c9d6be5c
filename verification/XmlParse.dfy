/** Conversion of a parsed file into the table, in the source's form: dns are written into the
    parsed objects in place, then every object is put in the table. */
module XmlParse {
  import opened Basics
  import opened XmlTree

  /** How the parsed objects nest; an object is known by its position in the store. */
  datatype Tree = Tree(id: nat, name: string, children: Trees)
  datatype Trees = NoTrees | MoreTrees(first: Tree, rest: Trees)

  function Ids(t: Tree): set<nat>
  {
    {t.id} + IdsAll(t.children)
  }

  function IdsAll(c: Trees): set<nat>
  {
    match c
    case NoTrees => {}
    case MoreTrees(t, rest) => Ids(t) + IdsAll(rest)
  }

  /** No object occurs twice in the tree, as in a freshly parsed file. */
  predicate Separate(t: Tree)
  {
    t.id !in IdsAll(t.children) && SeparateAll(t.children)
  }

  predicate SeparateAll(c: Trees)
  {
    match c
    case NoTrees => true
    case MoreTrees(t, rest) => Ids(t) !! IdsAll(rest) && Separate(t) && SeparateAll(rest)
  }

  predicate Within(ids: set<nat>, n: nat)
  {
    forall i :: i in ids ==> i < n
  }

  type Store = seq<map<string, string>>

  /** The tree of objects with the attributes the store holds for them. */
  function View(t: Tree, store: Store): Node
    requires Within(Ids(t), |store|)
  {
    Node(t.name, store[t.id], ViewAll(t.children, store))
  }

  function ViewAll(c: Trees, store: Store): Children
    requires Within(IdsAll(c), |store|)
  {
    match c
    case NoTrees => End
    case MoreTrees(t, rest) => Then(View(t, store), ViewAll(rest, store))
  }

  /** Changes elsewhere in the store do not show. */
  lemma {:induction false} ViewFrame(t: Tree, a: Store, b: Store)
    requires |a| == |b| && Within(Ids(t), |a|)
    requires forall i :: i in Ids(t) ==> a[i] == b[i]
    ensures View(t, a) == View(t, b)
    decreases t
  {
    ViewAllFrame(t.children, a, b);
  }

  lemma {:induction false} ViewAllFrame(c: Trees, a: Store, b: Store)
    requires |a| == |b| && Within(IdsAll(c), |a|)
    requires forall i :: i in IdsAll(c) ==> a[i] == b[i]
    ensures ViewAll(c, a) == ViewAll(c, b)
    decreases c
  {
    match c
    case NoTrees =>
    case MoreTrees(t, rest) =>
      ViewFrame(t, a, b);
      ViewAllFrame(rest, a, b);
  }

  lemma Associate<K, V>(a: map<K, V>, b: map<K, V>, c: map<K, V>)
    ensures (a + b) + c == a + (b + c)
  {
  }

  /** The parsed objects' attributes. */
  class Parsed {
    var store: Store

    constructor (store: Store)
      ensures this.store == store
    {
      this.store := store;
    }

    /** Write the dn of every object of a tree into its attributes. */
    method AddDn(t: Tree, parent: Option<nat>)
      requires Separate(t) && Within(Ids(t), |store|)
      requires parent.Some? ==> parent.value < |store| && parent.value !in Ids(t)
      modifies this
      ensures |store| == |old(store)|
      ensures forall i :: 0 <= i < |store| && i !in Ids(t) ==> store[i] == old(store)[i]
      ensures View(t, store) == XmlTree.AddDn(View(t, old(store)), if parent.Some?
              then Some(old(store)[parent.value]) else None)
      decreases t
    {
      if parent.Some? && DN in store[parent.value] && RN in store[t.id] {
        store := store[t.id := store[t.id][DN := store[parent.value][DN] + "/" + store[t.id][RN]]];
      }
      ViewAllFrame(t.children, old(store), store);
      AddDnAll(t.children, t.id);
    }

    method AddDnAll(c: Trees, parent: nat)
      requires SeparateAll(c) && Within(IdsAll(c), |store|)
      requires parent < |store| && parent !in IdsAll(c)
      modifies this
      ensures |store| == |old(store)|
      ensures forall i :: 0 <= i < |store| && i !in IdsAll(c) ==> store[i] == old(store)[i]
      ensures ViewAll(c, store) == XmlTree.AddDnAll(ViewAll(c, old(store)), old(store)[parent])
      decreases c
    {
      match c
      case NoTrees =>
      case MoreTrees(t, rest) =>
        AddDn(t, Some(parent));
        ViewAllFrame(rest, old(store), store);
        ghost var mid := store;
        AddDnAll(rest, parent);
        ViewFrame(t, mid, store);
    }
  }

  class Bolt {
    var table: Table

    constructor ()
      ensures table == map[]
    {
      table := map[];
    }

    method Put(k: string, e: Entry)
      modifies this
      ensures table == old(table)[k := e]
    {
      table := table[k := e];
    }

    /** Write n and everything nested in it; true when an empty dn stopped it. */
    method WriteMos(n: Node) returns (panicked: bool)
      modifies this
      ensures panicked == EmptyDn(n)
      ensures !panicked ==> table == old(table) + Flat(n)
      decreases Size(n)
    {
      ghost var t := table;
      if DN in n.attrs {
        var dn := n.attrs[DN];
        if dn == "" {
          return true;
        }
        Put(dn, Entry(n.name, n.attrs));
      }
      var rest := n.children;
      ghost var written := Own(n);
      assert table == t + written;
      while rest.Then?
        invariant SizeAll(rest) < Size(n)
        invariant EmptyDn(n) == EmptyDnAmong(rest)
        invariant table == t + written && written + FlatAll(rest) == Flat(n)
        decreases SizeAll(rest)
      {
        panicked := WriteMos(rest.first);
        if panicked {
          return;
        }
        Associate(t, written, Flat(rest.first));
        Associate(written, Flat(rest.first), FlatAll(rest.rest));
        written := written + Flat(rest.first);
        rest := rest.rest;
      }
      panicked := false;
      assert written + map[] == written;
    }

    /** Name every object of a parsed file and write it. */
    method Convert(parsed: Parsed, t: Tree) returns (panicked: bool)
      requires Separate(t) && Within(Ids(t), |parsed.store|)
      modifies this, parsed
      ensures var root := View(t, old(parsed.store));
              Proper(root) && DN in root.attrs && root.attrs[DN] != "" ==>
                !panicked && table == old(table) + Flattened(root)
    {
      ghost var root := View(t, parsed.store);
      parsed.AddDn(t, None);
      panicked := WriteMos(View(t, parsed.store));
      if Proper(root) && DN in root.attrs && root.attrs[DN] != "" {
        NoEmptyDn(root, None);
      }
    }
  }
}
