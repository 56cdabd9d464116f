/** `ServerGroup`: servers of one kind and their slots, which number them. */
module ServerSlots {

  const NEW_SERVER := 0xFFFF            // the index of a server not seen before
  const INVALID_CONNECT_ID := 0xFFFF_FFFF
  const UINT8_END := 0x100

  class Server {
    var idx: nat
    const connection: nat

    constructor (connection: nat)
      ensures this.connection == connection
    {
      this.connection, idx := connection, 0;
    }
  }

  /** Loops over the slots count in eight bits: with 256 slots or more a search that
      finds nothing does not end. */
  datatype Found = Slot(idx: nat) | Nowhere | Endless

  datatype Outcome = Done | Refused | NeverReturns

  class ServerGroup {
    const slots: array<Server?>

    constructor (count: nat)
      requires count < 0x1_0000
      ensures Valid() && fresh(slots) && slots.Length == count && forall i | 0 <= i < count :: slots[i] == null
    {
      slots := new Server?[count](_ => null);
    }

    /** Each server carries the index of its slot, and no two share a connection. */
    ghost predicate Valid()
      reads this, slots, set i | 0 <= i < slots.Length && slots[i] != null :: slots[i]
    {
      && slots.Length < 0x1_0000
      && (forall i | 0 <= i < slots.Length && slots[i] != null :: slots[i].idx == i)
      && (forall i, j | 0 <= i < j < slots.Length && slots[i] != null && slots[j] != null ::
           slots[i].connection != slots[j].connection)
    }

    /** A search through the slots for a free one, or for one of a connection. */
    method Search(connection: int) returns (found: Found)
      ensures found.Slot? ==> found.idx < slots.Length && found.idx < UINT8_END && Sought(slots[found.idx], connection)
      ensures found.Slot? ==> forall i | 0 <= i < found.idx :: !Sought(slots[i], connection)
      ensures !found.Slot? ==> forall i | 0 <= i < slots.Length && i < UINT8_END :: !Sought(slots[i], connection)
      ensures found.Endless? <==> slots.Length >= UINT8_END && forall i | 0 <= i < UINT8_END ::
        !Sought(slots[i], connection)
    {
      var idx := 0;
      while idx < slots.Length
        invariant idx <= slots.Length && idx < UINT8_END
        invariant forall i | 0 <= i < idx :: !Sought(slots[i], connection)
        decreases slots.Length - idx
      {
        if Sought(slots[idx], connection) {
          return Slot(idx);
        }
        if idx + 1 == UINT8_END {
          return Endless;   // the index wraps to zero and the search starts over
        }
        idx := idx + 1;
      }
      return Nowhere;
    }

    /** A free slot for a negative `connection`. */
    predicate Sought(s: Server?, connection: int)
    {
      if s == null then connection < 0 else s.connection == connection
    }

    /** `addServer`: a server that reconnects gets its old slot if that is free, a new
        one the first free slot, `at`. */
    method AddServer(server: Server, target: nat) returns (r: Outcome, ghost at: nat)
      requires Valid()
      requires forall i | 0 <= i < slots.Length && slots[i] != null :: slots[i].connection != server.connection
      modifies slots, server`idx
      ensures Valid()
      ensures r == Done ==> at < slots.Length && old(slots[at]) == null && slots[at] == server && server.idx == at
      ensures r == Done ==> forall i | 0 <= i < slots.Length && i != at :: slots[i] == old(slots[i])
      ensures r != Done ==> forall i | 0 <= i < slots.Length :: slots[i] == old(slots[i])
      ensures target != NEW_SERVER ==>
        r == if target < slots.Length && old(slots[target]) == null then Done else Refused
      ensures target != NEW_SERVER && r == Done ==> at == target
      ensures target == NEW_SERVER && r == Done ==> forall i | 0 <= i < at :: old(slots[i]) != null
      ensures target == NEW_SERVER ==>
        r == (if exists i :: 0 <= i < slots.Length && i < UINT8_END && old(slots[i]) == null then Done
              else if slots.Length >= UINT8_END then NeverReturns else Refused)
    {
      at := 0;
      if target != NEW_SERVER {
        if slots.Length <= target || slots[target] != null {
          return Refused, at;
        }
        server.idx := target;
        slots[target] := server;
        return Done, target;
      }
      var found := Search(-1);
      if !found.Slot? {
        return if found.Nowhere? then Refused else NeverReturns, at;
      }
      server.idx := found.idx;
      slots[found.idx] := server;
      return Done, found.idx;
    }

    /** `removeServer`: the slot of the connection is free again. */
    method RemoveServer(connection: nat) returns (r: Outcome)
      requires Valid()
      modifies slots
      ensures Valid()
      ensures r ==
        if exists i :: 0 <= i < slots.Length && i < UINT8_END && old(slots[i]) != null
                       && old(slots[i]).connection == connection
        then Done else if slots.Length >= UINT8_END then NeverReturns else Refused
      ensures forall i | 0 <= i < slots.Length ::
        slots[i] == if i < UINT8_END && old(slots[i]) != null && old(slots[i]).connection == connection then null
                    else old(slots[i])
    {
      var found := Search(connection);
      if !found.Slot? {
        return if found.Nowhere? then Refused else NeverReturns;
      }
      slots[found.idx] := null;
      return Done;
    }

    /** `getNetworkIDByTargetID`: the connection of the one server that carries the target's
        index, or none if no server does. */
    method GetNetworkIDByTargetID(target: nat) returns (connection: nat)
      requires Valid()
      ensures forall i | 0 <= i < slots.Length && slots[i] != null && slots[i].idx == target % slots.Length ::
        connection == slots[i].connection
      ensures (forall i | 0 <= i < slots.Length :: slots[i] == null || slots[i].idx != target % slots.Length) ==>
        connection == INVALID_CONNECT_ID
    {
      if slots.Length == 0 {
        return INVALID_CONNECT_ID;
      }
      var idx := target % slots.Length;
      if slots[idx] == null {
        return INVALID_CONNECT_ID;
      }
      return slots[idx].connection;
    }
  }
}
