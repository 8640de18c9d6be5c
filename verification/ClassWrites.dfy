/** What a device writes is what it sees: configured attributes win over stored ones, and nothing
    else changes. */
module ClassWrites {
  import opened Basics
  import opened ClassCache
  import opened ClassQuery
  import opened XmlStore
  import opened XmlTree

  /** shown has every attribute of over with its value, every other one of under with its, and
      no more. */
  predicate Overlaid(under: map<string, string>, over: map<string, string>, shown: map<string, string>)
  {
    && shown.Keys == under.Keys + over.Keys
    && (forall a :: a in over ==> a in shown && shown[a] == over[a])
    && (forall a :: a in under && a !in over ==> a in shown && shown[a] == under[a])
  }

  /** A stored object is shown with the attributes the device configured over the stored ones,
      and with what the configuration nests; without a configuration, as it is stored. */
  lemma ConfiguredWins(t: Table, conf: Configs, k: string)
    requires Fits(t, conf) && k in t
    ensures Shown(t, conf, k).name == t[k].name
    ensures if Live(conf, k)
            then var o := conf[k][t[k].name][0];
                 Overlaid(t[k].attrs, o.entry.attrs, Shown(t, conf, k).attrs) && Given(t, conf, k) == o.nested
            else Shown(t, conf, k) == t[k] && Given(t, conf, k) == []
  {
  }

  /** After a device wrote an object of the class of a stored one, looking that up shows exactly
      the written attributes over the stored ones, and what was nested in what was written. */
  lemma WrittenIsSeen(db: Db, dev: string, dn: string, in_: Config)
    requires Sound(db) && Apt(db, Written(dev, dn, in_)) && dn in db.table && db.table[dn].name in in_
    ensures var d, c := Write(db, dev, dn, in_), db.table[dn].name;
            && Sound(d)
            && var look := LookUp(d.table, ConfigsOf(d, dev), dn, false);
               && look.Seen? && look.mo.Keys == {c} && |look.mo[c]| == 1
               && look.mo[c][0].entry.name == c && look.mo[c][0].nested == in_[c][0].nested
               && Overlaid(db.table[dn].attrs, in_[c][0].entry.attrs, look.mo[c][0].entry.attrs)
  {
    WriteSound(db, dev, dn, in_);
    var d, c := Write(db, dev, dn, in_), db.table[dn].name;
    var conf := ConfigsOf(d, dev);
    assert conf[dn][c] == in_[c] && Live(conf, dn);
    hide Sound;
    ConfiguredWins(d.table, conf, dn);
    hide Fits;
    hide Overlaid;
  }

  /** An object that exists only as a configuration shows what was written class by class. */
  lemma OwnIsSeen(db: Db, dev: string, dn: string, in_: Config)
    requires Sound(db) && Apt(db, Written(dev, dn, in_)) && dn !in db.table && in_ != map[]
    ensures var d := Write(db, dev, dn, in_);
            && Sound(d)
            && var look := LookUp(d.table, ConfigsOf(d, dev), dn, false);
               && look.Seen? && (forall c :: c in in_ ==> c in look.mo && look.mo[c] == in_[c])
               && (forall c :: c !in in_ ==>
                     (c in look.mo <==> Live(ConfigsOf(db, dev), dn) && c in ConfigsOf(db, dev)[dn])
                     && (c in look.mo ==> look.mo[c] == ConfigsOf(db, dev)[dn][c]))
  {
    WriteSound(db, dev, dn, in_);
    var d, conf := Write(db, dev, dn, in_), ConfigsOf(db, dev);
    assert in_.Keys != {};
    var c :| c in in_;
    assert c in ConfigsOf(d, dev)[dn];
    hide Sound;
    hide Fits;
  }

  /** Other names, and other devices, see what they saw. */
  lemma OthersSeeTheSame(db: Db, dev: string, dn: string, in_: Config, x: string, other: string)
    requires Sound(db) && Apt(db, Written(dev, dn, in_)) && (x != dn || other != dev)
    ensures var d := Write(db, dev, dn, in_);
            && Sound(d)
            && LookUp(d.table, ConfigsOf(d, other), x, false) == LookUp(db.table, ConfigsOf(db, other), x, false)
  {
    WriteSound(db, dev, dn, in_);
    assert other in db.configs ==> Fits(db.table, db.configs[other]);
    var a, b := ConfigsOf(db, other), ConfigsOf(Write(db, dev, dn, in_), other);
    assert x in a <==> x in b;
    assert x in a ==> a[x] == b[x];
    assert Fits(db.table, a) && Fits(db.table, b);
    hide Sound;
    hide Fits;
  }

  /** An addition is refused exactly when looking the name up shows the device an object. */
  lemma ExistsIff(db: Db, dev: string, dn: string)
    requires Sound(db)
    ensures Exists(db, dev, dn) <==> LookUp(db.table, ConfigsOf(db, dev), dn, false).Seen?
  {
    assert dev in db.configs ==> Fits(db.table, db.configs[dev]);
    hide Sound;
    hide Fits;
  }

  /** An object that a device added is seen as it was given, is the last of its class, and cannot be
      added again. */
  lemma AddedIsSeen(db: Db, dev: string, name: string, dn: string, attrs: map<string, string>)
    requires Sound(db) && !Exists(db, dev, dn) && dn !in ConfigsOf(db, dev)
    ensures var d := Add(db, dev, name, dn, attrs);
            && Sound(d)
            && LookUp(d.table, ConfigsOf(d, dev), dn, false) == Seen(map[name := [Obj(Entry(name, attrs), [])]])
            && AddedTo(d, dev, name) == AddedTo(db, dev, name) + [dn] && Exists(d, dev, dn)
  {
    AddSound(db, dev, name, dn, attrs);
    var in_ := map[name := [Obj(Entry(name, attrs), [])]];
    assert name in in_;
    assert ConfigsOf(Add(db, dev, name, dn, attrs), dev)[dn] == in_;
    hide Sound;
    hide Fits;
  }
}
