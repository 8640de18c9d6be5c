/** The port inventories of a fabric interconnect: moving ports between the ethernet list and
    the fibre-channel list refines a map from port to side. */
module NetworkPorts {
  import opened Basics
  import Text

  datatype Value = Nil | Num(n: int) | Text(s: string)

  /** The properties of a port. */
  type Port = map<string, Value>

  /** One entry of a unified-port request. */
  datatype Request = Request(
    portId: int, slotId: int, switchId: int, configState: string, adminSpeed: string, pcId: int, vsanId: Value)

  datatype Key = Key(slot: int, port: int)

  /** A numeric property; anything else reads as zero. */
  function Number(p: Port, name: string): int
  {
    if name in p && p[name].Num? then p[name].n else 0
  }

  function KeyOf(p: Port): Key
  {
    Key(Number(p, "SlotId"), Number(p, "PortId"))
  }

  function Target(r: Request): Key
  {
    Key(r.slotId, r.portId)
  }

  const ETHER := "ether.PhysicalPort"
  const FC := "fc.PhysicalPort"

  /** A port turned into an unconfigured ethernet port. */
  function EtherPort(p: Port, r: Request): (q: Port)
    ensures KeyOf(q) == Target(r)
    ensures "ObjectType" in q && q["ObjectType"] == Text(ETHER)
  {
    p["AdminSpeed" := Text("")]["AdminState" := Text("Disabled")]["ClassId" := Text(ETHER)]["Dn" := Text("")]
     ["Mode" := Text("access")]["ObjectType" := Text(ETHER)]["OperSpeed" := Text("auto")]["OperState" := Text("down")]
     ["OperStateQual" := Text("admin-down")]["PeerDn" := Text("")]["PortChannelId" := Num(0)]
     ["PortId" := Num(r.portId)]["Rn" := Text("")]["Role" := Text("unknown")]["SlotId" := Num(r.slotId)]
     ["SwitchId" := Num(r.switchId)]["TransceiverType" := Text("absent")]
  }

  function FormatInt(n: int): string
  {
    if n < 0 then "-" + Text.Decimal(-n) else Text.Decimal(n)
  }

  /** What a fibre-channel port shows depending on whether it is in use. */
  function FcState(p: Port, r: Request): Port
  {
    if r.configState == "configured" then
      p["OperState" := Text("up")]["OperStateQual" := Text("")]["Role" := Text("FcUplink PC Member")]
       ["AdminState" := Text("Enabled")]["MaxSpeed" := Text(r.adminSpeed)]["OperSpeed" := Text("8Gbps")]
       ["PortChannelId" := Num(r.pcId)]
    else
      p["OperState" := Text("down")]["OperStateQual" := Text("SFP not present")]["Role" := Text("Unconfigured")]
       ["AdminState" := Text("Disabled")]["MaxSpeed" := Text("unknown")]["OperSpeed" := Text("auto")]
       ["PortChannelId" := Num(0)]
  }

  /** What a fibre-channel port shows in any case. */
  function FcRest(p: Port, r: Request): (q: Port)
    ensures KeyOf(q) == Target(r)
    ensures "ObjectType" in p ==> "ObjectType" in q && q["ObjectType"] == p["ObjectType"]
  {
    p["PortId" := Num(r.portId)]["SlotId" := Num(r.slotId)]["SwitchId" := Text(if r.switchId == 1 then "A" else "B")]
     ["AdminSpeed" := Text(r.adminSpeed)]["B2bCredit" := Num(0)]["Mode" := Text("N-proxy")]["PeerDn" := Text("")]
     ["TransceiverType" := Text("")]["Vsan" := r.vsanId]["Wwn" := Text("")]
  }

  /** A port turned into a fibre-channel port. */
  function FcPort(p: Port, r: Request): (q: Port)
    ensures KeyOf(q) == Target(r)
    ensures "ObjectType" in q && q["ObjectType"] == Text(FC)
  {
    FcRest(
      FcState(p["ObjectType" := Text(FC)]["ClassId" := Text(FC)]
               ["Dn" := Text("sys/switch-B/slot-" + FormatInt(r.slotId) + "/switch-fc/port-" + FormatInt(r.portId))]
               ["Rn" := Text("")], r),
      r)
  }

  // -------------------------------------------------------------- list moves

  datatype PortLists = PortLists(ether: seq<Port>, fc: seq<Port>)

  /** First position of a port with the key, or none. */
  function IndexOf(ports: seq<Port>, k: Key): (i: Option<nat>)
    ensures i.Some? ==> i.value < |ports| && KeyOf(ports[i.value]) == k
    ensures i.None? ==> forall p :: p in ports ==> KeyOf(p) != k
  {
    if ports == [] then None
    else
      var n := |ports| - 1;
      match IndexOf(ports[..n], k)
      case Some(i) => Some(i)
      case None =>
        assert forall p :: p in ports ==> p in ports[..n] || p == ports[n] by {
          assert ports == ports[..n] + [ports[n]];
        }
        if KeyOf(ports[n]) == k then Some(n) else None
  }

  /** The last item takes the place of the removed one. */
  function SwapRemove(items: seq<Port>, i: nat): (r: seq<Port>)
    requires i < |items|
    ensures |r| == |items| - 1
  {
    items[i := items[|items| - 1]][..|items| - 1]
  }

  function Moved(s: PortLists, r: Request): Option<PortLists>
  {
    var i, j := IndexOf(s.ether, Target(r)), IndexOf(s.fc, Target(r));
    if i.None? && j.None? then None
    else if r.configState == "configured" || r.configState == "unconfigured" then
      if i.Some? then Some(PortLists(SwapRemove(s.ether, i.value), s.fc + [FcPort(s.ether[i.value], r)]))
      else Some(s.(fc := s.fc[j.value := FcPort(s.fc[j.value], r)]))
    else if r.configState == "deleted" then
      if i.Some? then Some(s.(ether := s.ether[i.value := EtherPort(s.ether[i.value], r)]))
      else Some(PortLists(s.ether + [EtherPort(s.fc[j.value], r)], SwapRemove(s.fc, j.value)))
    else Some(s)
  }

  /** All entries of a request in turn; none as soon as one names no port. */
  function MovedAll(s: PortLists, rs: seq<Request>): Option<PortLists>
  {
    if rs == [] then Some(s)
    else match MovedAll(s, rs[..|rs| - 1])
      case None => None
      case Some(t) => Moved(t, rs[|rs| - 1])
  }

  // ------------------------------------------------- ports as a map from key

  datatype Side = Ether | Fc

  /** A port together with the list that holds it. */
  datatype Entry = Entry(side: Side, port: Port)

  predicate Holds(s: PortLists, e: Entry)
  {
    e.port in (if e.side == Ether then s.ether else s.fc)
  }

  /** What one request entry makes of the port it names. */
  function Changed(e: Entry, r: Request): (c: Entry)
    ensures KeyOf(e.port) == Target(r) ==> KeyOf(c.port) == Target(r)
  {
    if r.configState == "configured" || r.configState == "unconfigured" then Entry(Fc, FcPort(e.port, r))
    else if r.configState == "deleted" then Entry(Ether, EtherPort(e.port, r))
    else e
  }

  /** What a whole request makes of one port: only the entries that name it count. */
  function ChangedAll(e: Entry, rs: seq<Request>): (c: Entry)
    ensures KeyOf(c.port) == KeyOf(e.port)
  {
    if rs == [] then e
    else
      var d, r := ChangedAll(e, rs[..|rs| - 1]), rs[|rs| - 1];
      if Target(r) == KeyOf(e.port) then Changed(d, r) else d
  }

  /** How many ports of a list have the key. */
  function Count(ports: seq<Port>, k: Key): nat
  {
    if ports == [] then 0 else Count(ports[..|ports| - 1], k) + (if KeyOf(ports[|ports| - 1]) == k then 1 else 0)
  }

  /** How many ports of either side have the key. */
  function Total(s: PortLists, k: Key): nat
  {
    Count(s.ether, k) + Count(s.fc, k)
  }

  /** No two ports, on either side, have the same slot and port number. */
  ghost predicate Distinct(s: PortLists)
  {
    forall k :: Total(s, k) <= 1
  }

  /** The same keys on both sides together, each as often. */
  ghost predicate SameKeys(s: PortLists, t: PortLists)
  {
    forall k :: Total(s, k) == Total(t, k)
  }

  lemma CountAppend(ports: seq<Port>, p: Port, k: Key)
    ensures Count(ports + [p], k) == Count(ports, k) + (if KeyOf(p) == k then 1 else 0)
  {
  }

  lemma {:induction false} CountReplace(ports: seq<Port>, i: nat, q: Port, k: Key)
    requires i < |ports|
    ensures Count(ports[i := q], k) + (if KeyOf(ports[i]) == k then 1 else 0)
         == Count(ports, k) + (if KeyOf(q) == k then 1 else 0)
  {
    var n: nat := |ports| - 1;
    if i < n {
      assert ports[i := q][..n] == ports[..n][i := q];
      CountReplace(ports[..n], i, q, k);
    } else {
      assert ports[i := q][..n] == ports[..n];
    }
  }

  lemma CountRemove(ports: seq<Port>, i: nat, k: Key)
    requires i < |ports|
    ensures Count(SwapRemove(ports, i), k) + (if KeyOf(ports[i]) == k then 1 else 0) == Count(ports, k)
  {
    CountReplace(ports, i, ports[|ports| - 1], k);
  }

  lemma {:induction false} CountIff(ports: seq<Port>, k: Key)
    ensures Count(ports, k) > 0 <==> IndexOf(ports, k).Some?
  {
    if ports != [] {
      CountIff(ports[..|ports| - 1], k);
    }
  }

  /** The port found for a key is the only one that has it. */
  lemma {:induction false} FoundIsOnly(ports: seq<Port>, i: nat, j: nat)
    requires i < |ports| && j < |ports| && KeyOf(ports[i]) == KeyOf(ports[j])
    requires Count(ports, KeyOf(ports[i])) <= 1
    ensures i == j
  {
    var n, k := |ports| - 1, KeyOf(ports[i]);
    CountIff(ports[..n], k);
    if i < n {
      assert ports[..n][i] in ports[..n];
      if j < n { FoundIsOnly(ports[..n], i, j); }
    } else if j < n {
      assert ports[..n][j] in ports[..n];
    }
  }

  /** A request entry moves or overwrites ports but conserves their keys. */
  lemma MovedKeepsKeys(s: PortLists, r: Request)
    requires Moved(s, r).Some?
    ensures SameKeys(s, Moved(s, r).value)
  {
    hide FcPort;
    hide EtherPort;
    hide Count;
    hide SwapRemove;
    var i, j := IndexOf(s.ether, Target(r)), IndexOf(s.fc, Target(r));
    forall k
      ensures Total(s, k) == Total(Moved(s, r).value, k)
    {
      if i.Some? {
        var p := s.ether[i.value];
        CountRemove(s.ether, i.value, k);
        CountAppend(s.fc, FcPort(p, r), k);
        CountReplace(s.ether, i.value, EtherPort(p, r), k);
      } else {
        var p := s.fc[j.value];
        CountRemove(s.fc, j.value, k);
        CountAppend(s.ether, EtherPort(p, r), k);
        CountReplace(s.fc, j.value, FcPort(p, r), k);
      }
    }
  }

  lemma StaysIn(ports: seq<Port>, i: nat, p: Port, q: Port)
    requires i < |ports| && p in ports && ports[i] != p
    ensures p in SwapRemove(ports, i) && p in ports[i := q]
  {
    var n := |ports| - 1;
    var j :| 0 <= j < |ports| && ports[j] == p;
    assert ports[i := q][j] == p;
    if j < n {
      assert SwapRemove(ports, i)[j] == p;
    } else {
      assert SwapRemove(ports, i)[i] == p;
    }
  }

  lemma ArrivesIn(ports: seq<Port>, i: Option<nat>, q: Port)
    ensures q in ports + [q]
    ensures i.Some? && i.value < |ports| ==> q in ports[i.value := q]
  {
    assert (ports + [q])[|ports|] == q;
    if i.Some? && i.value < |ports| {
      assert ports[i.value := q][i.value] == q;
    }
  }

  /** A port that shares the key of a request entry is the one the entry finds. */
  lemma OnlyTarget(s: PortLists, r: Request, e: Entry)
    requires Distinct(s) && Holds(s, e) && KeyOf(e.port) == Target(r)
    ensures var i, j := IndexOf(s.ether, Target(r)), IndexOf(s.fc, Target(r));
            if e.side == Ether then i.Some? && s.ether[i.value] == e.port
            else i.None? && j.Some? && s.fc[j.value] == e.port
  {
    var k := Target(r);
    var ports := if e.side == Ether then s.ether else s.fc;
    var i :| 0 <= i < |ports| && ports[i] == e.port;
    assert Total(s, k) <= 1;
    CountIff(s.ether, k);
    CountIff(s.fc, k);
    FoundIsOnly(ports, i, IndexOf(ports, k).value);
  }

  /** The pair of lists refines a map from key to side and properties: a request entry changes
      the port it names and leaves every other one alone. */
  lemma MovedRefines(s: PortLists, r: Request, e: Entry)
    requires Distinct(s) && Moved(s, r).Some? && Holds(s, e)
    ensures Holds(Moved(s, r).value, if KeyOf(e.port) == Target(r) then Changed(e, r) else e)
  {
    hide FcPort;
    hide EtherPort;
    hide SwapRemove;
    hide Distinct;
    var i, j := IndexOf(s.ether, Target(r)), IndexOf(s.fc, Target(r));
    if KeyOf(e.port) == Target(r) {
      OnlyTarget(s, r, e);
      ArrivesIn(s.ether, i, EtherPort(e.port, r));
      ArrivesIn(s.fc, j, FcPort(e.port, r));
    } else if e.side == Ether && i.Some? {
      StaysIn(s.ether, i.value, e.port, EtherPort(s.ether[i.value], r));
    } else if e.side == Fc && j.Some? {
      StaysIn(s.fc, j.value, e.port, FcPort(s.fc[j.value], r));
    }
  }

  /** After a whole request: the same keys, each once, and every port is what the entries that
      name it made of it, independently of all others. */
  lemma {:induction false} RequestRefines(s: PortLists, rs: seq<Request>, e: Entry)
    requires Distinct(s) && MovedAll(s, rs).Some? && Holds(s, e)
    ensures SameKeys(s, MovedAll(s, rs).value)
    ensures Holds(MovedAll(s, rs).value, ChangedAll(e, rs))
  {
    if rs != [] {
      var n := |rs| - 1;
      RequestRefines(s, rs[..n], e);
      var t := MovedAll(s, rs[..n]).value;
      MovedKeepsKeys(t, rs[n]);
      MovedRefines(t, rs[n], ChangedAll(e, rs[..n]));
    }
  }

  /** The side asked for by the last entry that names the key and asks for one. */
  function LastSide(rs: seq<Request>, k: Key): Option<Side>
  {
    if rs == [] then None
    else
      var r := rs[|rs| - 1];
      if Target(r) != k then LastSide(rs[..|rs| - 1], k)
      else if r.configState == "configured" || r.configState == "unconfigured" then Some(Fc)
      else if r.configState == "deleted" then Some(Ether)
      else LastSide(rs[..|rs| - 1], k)
  }

  /** Each port ends on the side that entry asks for, and carries that side's object type;
      without one it stays where it was. */
  lemma {:induction false} SideIsLastAsked(e: Entry, rs: seq<Request>)
    ensures var c, last := ChangedAll(e, rs), LastSide(rs, KeyOf(e.port));
            && c.side == (if last.Some? then last.value else e.side)
            && (OfSide(e) ==> OfSide(c))
  {
    hide FcPort;
    hide EtherPort;
    if rs != [] {
      SideIsLastAsked(e, rs[..|rs| - 1]);
    }
  }

  /** The last entry that names the key and asks for a side. */
  function LastEntry(rs: seq<Request>, k: Key): Option<Request>
  {
    if rs == [] then None
    else
      var r := rs[|rs| - 1];
      if Target(r) == k && r.configState in {"configured", "unconfigured", "deleted"} then Some(r)
      else LastEntry(rs[..|rs| - 1], k)
  }

  predicate Shows(p: Port, name: string, v: Value)
  {
    name in p && p[name] == v
  }

  /** A configured port is up and enabled, at the requested speed and in the requested channel;
      any other is down and disabled, in no channel. */
  predicate InState(p: Port, r: Request)
  {
    if r.configState == "configured" then
      && Shows(p, "OperState", Text("up")) && Shows(p, "AdminState", Text("Enabled"))
      && Shows(p, "MaxSpeed", Text(r.adminSpeed)) && Shows(p, "PortChannelId", Num(r.pcId))
      && Shows(p, "Role", Text("FcUplink PC Member")) && Shows(p, "Vsan", r.vsanId)
    else
      && Shows(p, "OperState", Text("down")) && Shows(p, "AdminState", Text("Disabled"))
      && Shows(p, "OperSpeed", Text("auto")) && Shows(p, "PortChannelId", Num(0))
      && Shows(p, "Role", Text(if r.configState == "deleted" then "unknown" else "Unconfigured"))
      && (r.configState == "unconfigured" ==> Shows(p, "Vsan", r.vsanId))
  }

  /** The state a port shows is that of the last entry that names it; a port named by none is as
      it was. */
  lemma {:induction false} StateIsLastAsked(e: Entry, rs: seq<Request>)
    ensures var c, last := ChangedAll(e, rs), LastEntry(rs, KeyOf(e.port));
            if last.Some? then InState(c.port, last.value) else c == e
  {
    if rs != [] {
      StateIsLastAsked(e, rs[..|rs| - 1]);
      FcInState(ChangedAll(e, rs[..|rs| - 1]).port, rs[|rs| - 1]);
      EtherInState(ChangedAll(e, rs[..|rs| - 1]).port, rs[|rs| - 1]);
      hide FcPort;
      hide EtherPort;
      hide InState;
    }
  }

  lemma FcInState(p: Port, r: Request)
    ensures r.configState == "configured" || r.configState == "unconfigured" ==> InState(FcPort(p, r), r)
  {
    var q := p["ObjectType" := Text(FC)]["ClassId" := Text(FC)]
             ["Dn" := Text("sys/switch-B/slot-" + FormatInt(r.slotId) + "/switch-fc/port-" + FormatInt(r.portId))]
             ["Rn" := Text("")];
    FcStateShows(q, r);
    var s := FcState(q, r);
    hide FcState;
    FcRestKeeps(s, r, "OperState");
    FcRestKeeps(s, r, "AdminState");
    FcRestKeeps(s, r, "MaxSpeed");
    FcRestKeeps(s, r, "OperSpeed");
    FcRestKeeps(s, r, "PortChannelId");
    FcRestKeeps(s, r, "Role");
    FcRestVsan(s, r);
    hide FcRest;
  }

  lemma FcStateShows(p: Port, r: Request)
    ensures var q := FcState(p, r);
            if r.configState == "configured" then
              && Shows(q, "OperState", Text("up")) && Shows(q, "AdminState", Text("Enabled"))
              && Shows(q, "MaxSpeed", Text(r.adminSpeed)) && Shows(q, "PortChannelId", Num(r.pcId))
              && Shows(q, "Role", Text("FcUplink PC Member"))
            else
              && Shows(q, "OperState", Text("down")) && Shows(q, "AdminState", Text("Disabled"))
              && Shows(q, "OperSpeed", Text("auto")) && Shows(q, "PortChannelId", Num(0))
              && Shows(q, "Role", Text("Unconfigured"))
  {
  }

  /** The remaining properties are other ones. */
  lemma FcRestKeeps(p: Port, r: Request, name: string)
    requires name !in {"PortId", "SlotId", "SwitchId", "AdminSpeed", "B2bCredit", "Mode", "PeerDn", "TransceiverType",
                       "Vsan", "Wwn"}
    ensures name in p ==> Shows(FcRest(p, r), name, p[name])
  {
  }

  lemma FcRestVsan(p: Port, r: Request)
    ensures Shows(FcRest(p, r), "Vsan", r.vsanId)
  {
  }

  lemma EtherInState(p: Port, r: Request)
    ensures r.configState == "deleted" ==> InState(EtherPort(p, r), r)
  {
  }

  /** The object type of a port matches the list it is in. */
  predicate OfSide(e: Entry)
  {
    "ObjectType" in e.port && e.port["ObjectType"] == Text(if e.side == Ether then ETHER else FC)
  }

  /** A request fails exactly when some entry names no port on either side. */
  lemma {:induction false} FailsIff(s: PortLists, rs: seq<Request>)
    ensures MovedAll(s, rs) == None <==> exists r :: r in rs && Total(s, Target(r)) == 0
    ensures MovedAll(s, rs).Some? ==> SameKeys(s, MovedAll(s, rs).value)
  {
    hide Moved;
    if rs != [] {
      var n := |rs| - 1;
      FailsIff(s, rs[..n]);
      assert rs == rs[..n] + [rs[n]];
      if MovedAll(s, rs[..n]).Some? {
        var t := MovedAll(s, rs[..n]).value;
        MissingIff(t, rs[n]);
        assert Total(s, Target(rs[n])) == Total(t, Target(rs[n]));
        if Moved(t, rs[n]).Some? {
          MovedKeepsKeys(t, rs[n]);
        }
      }
    }
  }

  lemma MissingIff(s: PortLists, r: Request)
    ensures Moved(s, r) == None <==> Total(s, Target(r)) == 0
  {
    hide FcPort;
    hide EtherPort;
    hide SwapRemove;
    CountIff(s.ether, Target(r));
    CountIff(s.fc, Target(r));
  }

  /** The first match in a prefix is the first match. */
  lemma {:induction false} IndexOfPrefix(ports: seq<Port>, i: nat, k: Key)
    requires i <= |ports| && IndexOf(ports[..i], k).Some?
    ensures IndexOf(ports, k) == IndexOf(ports[..i], k)
  {
    var n := |ports| - 1;
    if i <= n {
      assert ports[..n][..i] == ports[..i];
      IndexOfPrefix(ports[..n], i, k);
    } else {
      assert ports[..i] == ports;
    }
  }
}
