/** `CGameRoomCenter`: a table of rooms, two indexes by owner that agree with it, and
    room numbers that tell the type of the room. */
module RoomDirectory {
  import opened Wrappers
  import opened StdVector

  const UINT32_END := 0x1_0000_0000

  datatype RoomItem = RoomItem(roomID: nat, serial: nat, creator: nat, club: nat, chatRoomID: nat)

  type Rooms = map<nat, RoomItem>
  type Owners = map<nat, seq<nat>>

  /** Whose room it is, in one of the two indexes; a club number of zero is no club. */
  datatype Index = ByPlayer | ByClub

  function OwnerIn(index: Index, item: RoomItem): Option<nat> {
    if index == ByPlayer then Some(item.creator) else if item.club != 0 then Some(item.club) else None
  }

  ghost predicate OwnedBy(rooms: Rooms, index: Index, owner: nat, id: nat) {
    id in rooms && OwnerIn(index, rooms[id]) == Some(owner)
  }

  /** A room is in an owner's list exactly when the table names that owner; lists do
      not repeat a room and are never empty. */
  ghost predicate Agrees(owners: Owners, rooms: Rooms, index: Index) {
    && (forall o | o in owners :: owners[o] != [] && NoTwice(owners[o]))
    && (forall o, id | o in owners && id in owners[o] :: OwnedBy(rooms, index, o, id))
    && (forall o: nat, id: nat | OwnedBy(rooms, index, o, id) :: o in owners && id in owners[o])
  }

  // ---------------------------------------------------------------- room numbers

  /** `getRoomType`. */
  function RoomType(id: nat): int {
    var typeNumber, realID := id / 100000, id % 100000;
    (typeNumber - (realID % 4 + 1)) % 0x100
  }

  function RoomNumber(kind: nat, realID: nat): nat {
    (kind + (realID % 4 + 1)) * 100000 + realID
  }

  lemma TypeIsRecovered(kind: nat, realID: nat)
    requires kind < 0x100 && realID < 100000
    ensures RoomType(RoomNumber(kind, realID)) == kind
  {
    var number := kind + (realID % 4 + 1);
    assert (number * 100000 + realID) / 100000 == number && (number * 100000 + realID) % 100000 == realID;
  }

  /** Rooms of different types have different numbers, and so have different draws. */
  lemma NumbersDiffer(kind: nat, realID: nat, kind': nat, realID': nat)
    requires kind < 0x100 && realID < 100000 && kind' < 0x100 && realID' < 100000
    ensures RoomNumber(kind, realID) == RoomNumber(kind', realID') <==> kind == kind' && realID == realID'
  {
    TypeIsRecovered(kind, realID);
    TypeIsRecovered(kind', realID');
    LowDigits(kind, realID);
    LowDigits(kind', realID');
  }

  lemma LowDigits(kind: nat, realID: nat)
    requires realID < 100000
    ensures RoomNumber(kind, realID) % 100000 == realID
  {
  }

  /** A type of nine or more leaves no number of six digits. */
  lemma SixDigits(kind: nat, realID: nat)
    requires realID < 100000
    ensures RoomNumber(kind, realID) <= 999999 <==> kind + realID % 4 + 1 <= 9
    ensures kind >= 9 ==> RoomNumber(kind, realID) > 999999
  {
  }

  // ---------------------------------------------------------------- the indexes

  function RoomsOf(owners: Owners, owner: nat): seq<nat> {
    if owner in owners then owners[owner] else []
  }

  /** The owner, perhaps a new one, has one room more, once and at the end, and keeps the
      others in their order; no other owner's list changes. */
  ghost predicate Gains(more: Owners, owners: Owners, owner: nat, id: nat) {
    && owner in more && RoomsOf(owners, owner) <= more[owner] && |more[owner]| <= |RoomsOf(owners, owner)| + 1
    && (NoTwice(RoomsOf(owners, owner)) ==> NoTwice(more[owner]))
    && (forall x :: x in more[owner] <==> x == id || x in RoomsOf(owners, owner))
    && (forall o | o != owner :: (o in more <==> o in owners) && RoomsOf(more, o) == RoomsOf(owners, o))
  }

  lemma GainedAtTheEnd(more: Owners, owners: Owners, owner: nat, id: nat)
    requires Gains(more, owners, owner, id) && id !in RoomsOf(owners, owner)
    ensures RoomsOf(more, owner) == RoomsOf(owners, owner) + [id]
  {
    var list, was := more[owner], RoomsOf(owners, owner);
    assert id in list;
    var k :| 0 <= k < |list| && list[k] == id;
    assert forall j | 0 <= j < |was| :: list[j] == was[j] && was[j] in was;
    assert k == |was|;
    assert list == list[..|was|] + [list[|was|]];
  }

  lemma NotListedYet(owners: Owners, rooms: Rooms, index: Index, owner: nat, id: nat)
    requires Agrees(owners, rooms, index) && id !in rooms
    ensures id !in RoomsOf(owners, owner)
  {
    assert owner in owners && id in owners[owner] ==> OwnedBy(rooms, index, owner, id);
  }

  lemma AddedAgrees(owners: Owners, rooms: Rooms, index: Index, item: RoomItem, more: Owners, owner: nat)
    requires Agrees(owners, rooms, index) && item.roomID !in rooms && OwnerIn(index, item) == Some(owner)
    requires Gains(more, owners, owner, item.roomID)
    ensures Agrees(more, rooms[item.roomID := item], index)
  {
    var table, id := rooms[item.roomID := item], item.roomID;
    forall o: nat, x: nat | OwnedBy(table, index, o, x) ensures o in more && x in more[o] {
      if x != id {
        assert OwnedBy(rooms, index, o, x);
        assert x in RoomsOf(owners, o) && x in RoomsOf(more, o);
      }
    }
    forall o, x | o in more && x in more[o] ensures OwnedBy(table, index, o, x) {
      if o != owner || x != id {
        assert x in RoomsOf(more, o) && x in RoomsOf(owners, o);
        assert OwnedBy(rooms, index, o, x);
      }
    }
    forall o | o in more ensures more[o] != [] && NoTwice(more[o]) {
      assert o != owner ==> more[o] == RoomsOf(more, o) == RoomsOf(owners, o);
      assert id in more[owner];
    }
  }

  lemma AddedWithoutOwner(owners: Owners, rooms: Rooms, index: Index, item: RoomItem)
    requires Agrees(owners, rooms, index) && item.roomID !in rooms && OwnerIn(index, item).None?
    ensures Agrees(owners, rooms[item.roomID := item], index)
  {
    var table := rooms[item.roomID := item];
    forall o: nat, x: nat ensures OwnedBy(table, index, o, x) <==> OwnedBy(rooms, index, o, x) {
    }
  }

  ghost predicate Without(list: seq<nat>, was: seq<nat>, id: nat) {
    NoTwice(list) && forall x :: x in list <==> x in was && x != id
  }

  lemma DeletedAgrees(owners: Owners, rooms: Rooms, index: Index, id: nat, owner: nat, list: seq<nat>)
    requires Agrees(owners, rooms, index) && OwnedBy(rooms, index, owner, id) && owner in owners
    requires Without(list, owners[owner], id)
    ensures Agrees(if list == [] then owners - {owner} else owners[owner := list], rooms - {id}, index)
  {
    var less, table := if list == [] then owners - {owner} else owners[owner := list], rooms - {id};
    forall o: nat, x: nat | OwnedBy(table, index, o, x) ensures o in less && x in less[o] {
      assert OwnedBy(rooms, index, o, x);
      if o == owner {
        assert x in list;
      }
    }
    forall o, x | o in less && x in less[o] ensures OwnedBy(table, index, o, x) {
      assert o in owners && x in owners[o];
      assert OwnedBy(rooms, index, o, x);
    }
  }

  lemma DeletedWithoutOwner(owners: Owners, rooms: Rooms, index: Index, id: nat)
    requires Agrees(owners, rooms, index) && id in rooms && OwnerIn(index, rooms[id]).None?
    ensures Agrees(owners, rooms - {id}, index)
  {
    forall o: nat, x: nat ensures OwnedBy(rooms - {id}, index, o, x) <==> OwnedBy(rooms, index, o, x) {
    }
  }

  /** `addRoomItemToOwner`. */
  method AddToOwner(owners: Owners, owner: nat, id: nat) returns (r: Owners)
    ensures Gains(r, owners, owner, id)
  {
    r := owners;
    if owner !in r {
      r := r[owner := []];
    }
    if id !in r[owner] {
      AddedOnce(r[owner], id);
      r := r[owner := r[owner] + [id]];
    }
  }

  lemma AddedOnce(list: seq<nat>, id: nat)
    requires id !in list
    ensures NoTwice(list) ==> NoTwice(list + [id])
    ensures forall x :: x in list + [id] <==> x == id || x in list
  {
    assert (list + [id])[|list|] == id;
  }

  /** `deleteRoomItemFromOwner`: an owner left without rooms is dropped. */
  method DeleteFromOwner(owners: Owners, owner: nat, id: nat) returns (r: Owners, found: bool, ghost list: seq<nat>)
    requires owner in owners ==> NoTwice(owners[owner])
    ensures found == (owner in owners)
    ensures owner !in owners || id !in owners[owner] ==> r == owners
    ensures owner in owners && id in owners[owner] ==>
      Without(list, owners[owner], id) && r == (if list == [] then owners - {owner} else owners[owner := list])
  {
    list := [];
    if owner !in owners {
      return owners, false, list;
    }
    r := owners;
    if id in owners[owner] {
      var rest := Erase(owners[owner], id);
      ErasedIsGone(owners[owner], id, rest);
      list := rest;
      r := r[owner := rest];
      if rest == [] {
        r := r - {owner};
        assert r == owners - {owner};
      }
    }
    return r, true, list;
  }

  // ---------------------------------------------------------------- the directory

  class Directory {
    var rooms: Rooms
    var players: Owners
    var clubs: Owners
    var willUse: seq<nat>        // numbers given out, their rooms not added yet
    var chatRooms: seq<nat>      // chat rooms to be used again
    var serial: nat

    ghost predicate Valid()
      reads this
    {
      && (forall id | id in rooms :: rooms[id].roomID == id)
      && Agrees(players, rooms, ByPlayer) && Agrees(clubs, rooms, ByClub)
      && NoTwice(willUse) && (forall id | id in willUse :: id !in rooms) && serial < UINT32_END
    }

    constructor (serial: nat)
      requires serial < UINT32_END
      ensures Valid() && rooms == map[] && willUse == []
    {
      rooms, players, clubs, willUse, chatRooms := map[], map[], map[], [], [];
      this.serial := serial;
    }

    /** Who is listed where: a room under its creator, and under its club if it has one; nobody
        is listed without a room, and no room twice. */
    lemma ListedExactlyWhen(owner: nat, id: nat)
      requires Valid()
      ensures id in RoomsOf(players, owner) <==> id in rooms && rooms[id].creator == owner
      ensures id in RoomsOf(clubs, owner) <==> id in rooms && rooms[id].club == owner && owner != 0
      ensures NoTwice(RoomsOf(players, owner)) && NoTwice(RoomsOf(clubs, owner))
      ensures (owner in players ==> players[owner] != []) && (owner in clubs ==> clubs[owner] != [])
    {
      assert id in rooms ==> (OwnedBy(rooms, ByPlayer, owner, id) <==> rooms[id].creator == owner);
      assert id in rooms ==> (OwnedBy(rooms, ByClub, owner, id) <==> rooms[id].club == owner && owner != 0);
    }

    /** `addRoomItem`: a number already in the table changes nothing. */
    method AddRoomItem(item: RoomItem)
      requires Valid()
      modifies this`rooms, this`players, this`clubs, this`willUse
      ensures Valid()
      ensures rooms == if item.roomID in old(rooms) then old(rooms) else old(rooms)[item.roomID := item]
      ensures item.roomID !in old(rooms) ==> forall id :: id in willUse <==> id in old(willUse) && id != item.roomID
      ensures item.roomID in old(rooms) ==> willUse == old(willUse) && players == old(players) && clubs == old(clubs)
      ensures item.roomID !in old(rooms) ==>
        && RoomsOf(players, item.creator) == RoomsOf(old(players), item.creator) + [item.roomID]
        && RoomsOf(clubs, item.club) == RoomsOf(old(clubs), item.club) + (if item.club != 0 then [item.roomID] else [])
        && (forall o | o != item.creator :: RoomsOf(players, o) == RoomsOf(old(players), o))
        && (forall o | o != item.club :: RoomsOf(clubs, o) == RoomsOf(old(clubs), o))
    {
      hide Agrees, RoomsOf;
      if item.roomID in rooms {
        return;
      }
      AddToPlayer(item);
      AddToClub(item);
      rooms := rooms[item.roomID := item];
      NotReserved(item.roomID);
    }

    /** The number is not reserved any more. */
    method NotReserved(id: nat)
      requires NoTwice(willUse)
      modifies this`willUse
      ensures NoTwice(willUse) && forall x :: x in willUse <==> x in old(willUse) && x != id
    {
      if id in willUse {
        var rest := Erase(willUse, id);
        ErasedIsGone(willUse, id, rest);
        willUse := rest;
      }
    }

    method AddToPlayer(item: RoomItem)
      requires Agrees(players, rooms, ByPlayer) && item.roomID !in rooms
      modifies this`players
      ensures Agrees(players, rooms[item.roomID := item], ByPlayer)
      ensures RoomsOf(players, item.creator) == RoomsOf(old(players), item.creator) + [item.roomID]
      ensures forall o | o != item.creator :: RoomsOf(players, o) == RoomsOf(old(players), o)
    {
      NotListedYet(players, rooms, ByPlayer, item.creator, item.roomID);
      hide Agrees;
      players := AddToOwner(players, item.creator, item.roomID);
      AddedAgrees(old(players), rooms, ByPlayer, item, players, item.creator);
      GainedAtTheEnd(players, old(players), item.creator, item.roomID);
    }

    method AddToClub(item: RoomItem)
      requires Agrees(clubs, rooms, ByClub) && item.roomID !in rooms
      modifies this`clubs
      ensures Agrees(clubs, rooms[item.roomID := item], ByClub)
      ensures RoomsOf(clubs, item.club) ==
        RoomsOf(old(clubs), item.club) + (if item.club != 0 then [item.roomID] else [])
      ensures forall o | o != item.club :: RoomsOf(clubs, o) == RoomsOf(old(clubs), o)
    {
      NotListedYet(clubs, rooms, ByClub, item.club, item.roomID);
      hide Agrees;
      if item.club != 0 {
        clubs := AddToOwner(clubs, item.club, item.roomID);
        AddedAgrees(old(clubs), rooms, ByClub, item, clubs, item.club);
        GainedAtTheEnd(clubs, old(clubs), item.club, item.roomID);
      } else {
        AddedWithoutOwner(clubs, rooms, ByClub, item);
      }
    }

    /** `deleteRoomItem`: the chat room, if there is one, is kept for another room. */
    method DeleteRoomItem(id: nat)
      requires Valid()
      modifies this`rooms, this`players, this`clubs, this`chatRooms
      ensures Valid() && rooms == old(rooms) - {id}
      ensures chatRooms ==
        if id in old(rooms) && old(rooms)[id].chatRoomID != 0 then old(chatRooms) + [old(rooms)[id].chatRoomID]
                           else old(chatRooms)
    {
      if id !in rooms {
        return;
      }
      var item := rooms[id];
      if item.chatRoomID != 0 {
        chatRooms := chatRooms + [item.chatRoomID];
      }
      DeleteFromPlayer(id);
      DeleteFromClub(id);
      rooms := rooms - {id};
    }

    method DeleteFromPlayer(id: nat)
      requires Agrees(players, rooms, ByPlayer) && id in rooms
      modifies this`players
      ensures Agrees(players, rooms - {id}, ByPlayer)
    {
      var owner := rooms[id].creator;
      assert OwnedBy(rooms, ByPlayer, owner, id);
      var found; ghost var list;
      players, found, list := DeleteFromOwner(players, owner, id);
      DeletedAgrees(old(players), rooms, ByPlayer, id, owner, list);
    }

    method DeleteFromClub(id: nat)
      requires Agrees(clubs, rooms, ByClub) && id in rooms
      modifies this`clubs
      ensures Agrees(clubs, rooms - {id}, ByClub)
    {
      var owner := rooms[id].club;
      if owner == 0 {
        DeletedWithoutOwner(clubs, rooms, ByClub, id);
        return;
      }
      assert OwnedBy(rooms, ByClub, owner, id);
      var found; ghost var list;
      clubs, found, list := DeleteFromOwner(clubs, owner, id);
      DeletedAgrees(old(clubs), rooms, ByClub, id, owner, list);
    }

    predicate Fits(kind: nat, roll: nat)
      reads this
    {
      var id := RoomNumber(kind, roll % 100000);
      id <= 999999 && id !in rooms && id !in willUse
    }

    /** A draw fits exactly when its number has at most six digits and is neither live nor
        reserved. */
    lemma FitsExactlyWhen(kind: nat, roll: nat)
      ensures var realID := roll % 100000;
        var id := (kind + realID % 4 + 1) * 100000 + realID;
        Fits(kind, roll) <==> id < 1000000 && id !in rooms && id !in willUse
    {
    }

    /** `generateRoomID`: numbers are drawn until one fits. `rolls` are the random numbers;
        without one that fits the source goes on drawing. */
    method GenerateRoomID(kind: nat, rolls: seq<nat>) returns (id: Option<nat>, number: nat)
      requires Valid() && kind < 0x100
      modifies this`willUse, this`serial
      ensures Valid() && serial == number == (old(serial) + 1) % UINT32_END
      ensures id.None? <==> forall k | 0 <= k < |rolls| :: !old(Fits(kind, rolls[k]))
      ensures id.Some? ==> exists k :: (0 <= k < |rolls| && old(Fits(kind, rolls[k]))
        && id.value == (kind + rolls[k] % 100000 % 4 + 1) * 100000 + rolls[k] % 100000
        && forall q | 0 <= q < k :: !old(Fits(kind, rolls[q])))
      ensures id.None? ==> willUse == old(willUse)
      ensures id.Some? ==> willUse == old(willUse) + [id.value] && id.value !in rooms && id.value !in old(willUse)
      ensures id.Some? ==> RoomType(id.value) == kind && id.value <= 999999
    {
      serial := (serial + 1) % UINT32_END;
      number := serial;
      var k := 0;
      while k < |rolls|
        invariant k <= |rolls| && willUse == old(willUse) && serial == number == (old(serial) + 1) % UINT32_END
        invariant forall q | 0 <= q < k :: !old(Fits(kind, rolls[q]))
      {
        var realID := rolls[k] % 100000;
        var drawn := RoomNumber(kind, realID);
        if !(drawn > 999999 || drawn in rooms || drawn in willUse) {
          TypeIsRecovered(kind, realID);
          assert old(Fits(kind, rolls[k]));
          willUse := willUse + [drawn];
          return Some(drawn), number;
        }
        assert !old(Fits(kind, rolls[k]));
        k := k + 1;
      }
      return None, number;
    }
  }
}
