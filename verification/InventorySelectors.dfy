/** Relationship selectors: what createInventory prints is read back by resolveRelationship. */
module InventorySelectors {
  import opened Basics
  import opened InventoryModel
  import Text

  /** The selector createInventory prints for one selector entry and a printed peer property. */
  function SelectorFor(prop: string, op: string, value: string): string
  {
    prop + " " + op + " '" + value + "'"
  }

  /** prop is a single word, as property names are. */
  predicate Word(prop: string)
  {
    forall i :: 0 <= i < |prop| ==> prop[i] != ' '
  }

  /** Values a selector can carry: no separator inside and no quote at either end. */
  predicate Quotable(value: string)
  {
    !Text.Occurs(value, " eq ") && Text.Bare(value, '\'')
  }

  lemma SplitPrinted(prop: string, value: string)
    requires Word(prop)
    ensures var parts := Text.Split(SelectorFor(prop, "eq", value), " eq ");
            if Text.Occurs(value, " eq ") then |parts| != 2
            else parts == [prop, "'" + value + "'"]
  {
    var s := SelectorFor(prop, "eq", value);
    var sep := " eq ";
    var rest := "'" + value + "'";
    assert s == prop + sep + rest;
    assert Text.At(s, sep, |prop|);
    forall j: nat | j < |prop|
      ensures !Text.At(s, sep, j)
    {
      assert s[j] == prop[j] != ' ';
      if Text.At(s, sep, j) { Text.AtChar(s, sep, j, 0); }
    }
    assert Text.Find(s, sep, 0) == |prop|;
    assert s[..|prop|] == prop && s[|prop| + 4..] == rest;
    assert Text.Split(s, sep) == [prop] + Text.Split(rest, sep);
    OccursInQuotes(value);
    if !Text.Occurs(value, sep) {
      assert Text.Find(rest, sep, 0) == -1;
    }
  }

  lemma OccursInQuotes(value: string)
    ensures Text.Occurs("'" + value + "'", " eq ") <==> Text.Occurs(value, " eq ")
  {
    var sep, q := " eq ", "'" + value + "'";
    if j: nat :| j <= |value| && Text.At(value, sep, j) {
      assert q[j + 1..j + 5] == value[j..j + 4];
      assert Text.At(q, sep, j + 1);
    }
    if j: nat :| j <= |q| && Text.At(q, sep, j) {
      Text.AtChar(q, sep, j, 0);
      Text.AtChar(q, sep, j, 3);
      assert value[j - 1..j + 3] == q[j..j + 4];
      assert Text.At(value, sep, j - 1);
    }
  }

  /** A selector with any printed value names the key of its peer, whose only identity field is a
      one-word property, exactly when the value holds no separator and reads back, without the
      quotes, as it is shown in the key. */
  lemma SelectorNames(schema: Schema, t: string, prop: string, printed: string, peer: Mo)
    requires Word(prop)
    requires TypeOf(peer) == Some(t) && t in schema.identities && schema.identities[t] == [prop] && prop in peer
    ensures KeyOf(schema, peer).Some?
    ensures SelectorKey(MoRef(t, SelectorFor(prop, "eq", printed))) == KeyOf(schema, peer)
            <==> !Text.Occurs(printed, " eq ") && Text.Trim("'" + printed + "'", '\'') == schema.show(peer[prop])
  {
    var ids, shown := schema.identities[t], schema.show(peer[prop]);
    assert ids[..0] == [] && FieldKey(schema, ids[..0], peer) == Some("");
    assert FieldKey(schema, ids, peer) == Some("" + ":" + prop + "=" + shown);
    var head := "ObjectType=" + t + ":" + prop + "=";
    assert "ObjectType=" + t + ("" + ":" + prop + "=" + shown) == head + shown;
    SplitPrinted(prop, printed);
    if !Text.Occurs(printed, " eq ") {
      var w := Text.Trim("'" + printed + "'", '\'');
      assert SelectorKey(MoRef(t, SelectorFor(prop, "eq", printed))) == Some(head + w);
      assert (head + w)[|head|..] == w && (head + shown)[|head|..] == shown;
    }
  }

  /** For a string-valued property, exactly when the value is quotable. */
  lemma SelectorRoundTrip(schema: Schema, t: string, prop: string, value: string, peer: Mo)
    requires Word(prop)
    requires TypeOf(peer) == Some(t) && t in schema.identities && schema.identities[t] == [prop]
    requires prop in peer && peer[prop] == Str(value) && schema.show(Str(value)) == value
    ensures KeyOf(schema, peer).Some?
    ensures SelectorKey(MoRef(t, SelectorFor(prop, "eq", value))) == KeyOf(schema, peer) <==> Quotable(value)
  {
    SelectorNames(schema, t, prop, value, peer);
    assert "'" + value + "'" == ['\''] + value + ['\''];
    Text.TrimQuoted(value, '\'');
  }

  /** How %s prints a value of another type: a complaint that names the type and shows the value. */
  function Complaint(kind: string, shown: string): string
  {
    "%!s(" + kind + "=" + shown + ")"
  }

  /** For an integer or float property, never. */
  lemma NumberNeverNamed(schema: Schema, t: string, prop: string, kind: string, peer: Mo)
    requires Word(prop)
    requires TypeOf(peer) == Some(t) && t in schema.identities && schema.identities[t] == [prop] && prop in peer
    ensures SelectorKey(MoRef(t, SelectorFor(prop, "eq", Complaint(kind, schema.show(peer[prop]))))) != KeyOf(schema,
            peer)
  {
    var shown := schema.show(peer[prop]);
    var p := Complaint(kind, shown);
    SelectorNames(schema, t, prop, p, peer);
    assert "'" + p + "'" == ['\''] + p + ['\''];
    assert Text.Bare(p, '\'') && |p| > |shown|;
    Text.TrimQuoted(p, '\'');
  }

  /** Only the last selector entry of a relationship survives, because each overwrites the string. */
  function PrintSelectors(entries: seq<(string, string, string)>): string
  {
    if entries == [] then ""
    else var (prop, op, value) := entries[|entries| - 1]; SelectorFor(prop, op, value)
  }

  /** createInventory's selector loop. */
  method BuildSelector(entries: seq<(string, string, string)>) returns (sel: string)
    ensures sel == PrintSelectors(entries)
  {
    sel := "";
    for i := 0 to |entries|
      invariant sel == PrintSelectors(entries[..i])
    {
      var (prop, op, value) := entries[i];
      sel := prop + " " + op + " '" + value + "'";
      assert entries[..i + 1][|entries[..i + 1]| - 1] == entries[i];
    }
    assert entries[..|entries|] == entries;
  }
}
