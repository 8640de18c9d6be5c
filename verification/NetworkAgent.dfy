/** The unified-port configuration of the network agent in the source's form: two inventory
    lists updated entry by entry and written back only when every entry succeeded. */
module NetworkAgent {
  import opened Basics
  import opened NetworkPorts

  class Agent {
    /** The emulator's stored inventories. */
    var inventory: map<string, seq<Port>>
    var inventorySyncState: map<string, bool>
    /** The lists being edited. */
    var ports: seq<Port>
    var fcports: seq<Port>

    constructor (inventory: map<string, seq<Port>>)
      ensures this.inventory == inventory && inventorySyncState == map[]
    {
      this.inventory := inventory;
      inventorySyncState, ports, fcports := map[], [], [];
    }

    /** First port with the numbers, and its position. */
    method GetPort(portId: int, slotId: int, items: seq<Port>) returns (index: nat, port: Option<Port>)
      ensures match IndexOf(items, Key(slotId, portId))
              case None => port == None
              case Some(i) => index == i && port == Some(items[i])
    {
      for i := 0 to |items|
        invariant IndexOf(items[..i], Key(slotId, portId)) == None
      {
        assert items[..i + 1][..i] == items[..i];
        var id, slot := Number(items[i], "PortId"), Number(items[i], "SlotId");
        if id == portId && slot == slotId {
          IndexOfPrefix(items, i + 1, Key(slotId, portId));
          return i, Some(items[i]);
        }
      }
      assert items[..|items|] == items;
      return 0, None;
    }

    /** Remove an item by putting the last one in its place. */
    method RemoveInventoryItem(items: seq<Port>, index: nat) returns (r: seq<Port>)
      requires index < |items|
      ensures r == SwapRemove(items, index)
    {
      r := items[index := items[|items| - 1]];
      r := r[..|items| - 1];
    }

    /** One entry of the request; false when it names no port. */
    method ConfigureOne(r: Request) returns (found: bool)
      modifies this`ports, this`fcports
      ensures var s := Moved(PortLists(old(ports), old(fcports)), r);
              && found == s.Some?
              && (found ==> PortLists(ports, fcports) == s.value)
    {
      hide FcPort;
      hide EtherPort;
      hide SwapRemove;
      var portIndex, port := GetPort(r.portId, r.slotId, ports);
      var fcPortIndex, fcport := GetPort(r.portId, r.slotId, fcports);
      if port == None && fcport == None {
        return false;
      }
      var ether := port.Some?;
      if r.configState == "configured" || r.configState == "unconfigured" {
        if ether {
          ports := RemoveInventoryItem(ports, portIndex);
          fcports := fcports + [FcPort(port.value, r)];
        } else {
          fcports := fcports[fcPortIndex := FcPort(fcport.value, r)];
        }
      } else if r.configState == "deleted" {
        if !ether {
          fcports := RemoveInventoryItem(fcports, fcPortIndex);
          ports := ports + [EtherPort(fcport.value, r)];
        } else {
          ports := ports[portIndex := EtherPort(port.value, r)];
        }
      }
      found := true;
    }

    /** A unified-port request. It fails without effect on what is stored when the ethernet
        inventory is missing or an entry names no port; otherwise both inventories are
        replaced and marked as not synchronised. */
    method ConfigureUnifiedPorts(msg: seq<Request>) returns (ok: bool)
      modifies this
      ensures var fc := if "inventoryFcPorts" in old(inventory) then old(inventory)["inventoryFcPorts"] else [];
              var s := if "portInventory" in old(inventory)
                  then MovedAll(PortLists(old(inventory)["portInventory"], fc), msg) else None;
              && ok == s.Some?
              && (!ok ==> inventory == old(inventory) && inventorySyncState == old(inventorySyncState))
              && (ok ==> && inventory == old(inventory)["inventoryFcPorts" := s.value.fc]["portInventory"
                  := s.value.ether]
                         && inventorySyncState == old(inventorySyncState)["portInventory"
                             := false]["inventoryFcPorts" := false])
    {
      fcports := if "inventoryFcPorts" in inventory then inventory["inventoryFcPorts"] else [];
      if "portInventory" !in inventory {
        return false;
      }
      ports := inventory["portInventory"];
      ghost var start := PortLists(ports, fcports);
      for i := 0 to |msg|
        invariant MovedAll(start, msg[..i]) == Some(PortLists(ports, fcports))
        invariant inventory == old(inventory) && inventorySyncState == old(inventorySyncState)
      {
        assert msg[..i + 1][..i] == msg[..i];
        var found := ConfigureOne(msg[i]);
        if !found {
          FailsFor(start, msg, i + 1);
          return false;
        }
      }
      assert msg[..|msg|] == msg;
      inventory := inventory["inventoryFcPorts" := fcports]["portInventory" := ports];
      inventorySyncState := inventorySyncState["portInventory" := false]["inventoryFcPorts" := false];
      ok := true;
    }
  }

  lemma {:induction false} FailsFor(s: PortLists, rs: seq<Request>, i: nat)
    requires i <= |rs| && MovedAll(s, rs[..i]) == None
    ensures MovedAll(s, rs) == None
  {
    hide Moved;
    var n := |rs| - 1;
    if i <= n {
      assert rs[..n][..i] == rs[..i];
      FailsFor(s, rs[..n], i);
    } else {
      assert rs[..i] == rs;
    }
  }
}
