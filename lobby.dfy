/** The lobby of src/services/lobbyService.ts: an in-memory record of game rooms
    keyed by room id. A room waits for a guest and becomes ready when one joins;
    listing the lobby deletes the rooms created more than an hour earlier. */
module Lobby {
  import opened Wrappers

  datatype RoomMode = Staked | Free

  datatype RoomStatus = Waiting | Ready | InProgress

  /** One hour in milliseconds: getRooms deletes a room older than this. */
  const OneHour: int := 60 * 60 * 1000

  /** A room's fields as a value. */
  datatype Room = Room(roomId: string, hostId: string, guestId: Option<string>,
                       gameMode: RoomMode, createdAt: int, status: RoomStatus)

  /** Whether `guestId` is truthy: neither null nor the empty string. */
  predicate HasGuest(guestId: Option<string>)
  {
    guestId.Some? && guestId.value != ""
  }

  /** joinRoom on a room's value: a waiting room without a guest takes `guestId`
      and becomes ready; any other room refuses. */
  function Join(room: Room, guestId: string): Option<Room>
  {
    if room.status == Waiting && !HasGuest(room.guestId) then
      Some(room.(guestId := Some(guestId), status := Ready))
    else
      None
  }

  /** A join succeeds exactly on a waiting room without a guest, and then
      changes nothing but the guest and the status. */
  lemma JoinExact(room: Room, guestId: string)
    ensures Join(room, guestId).Some? <==> room.status == Waiting && !HasGuest(room.guestId)
    ensures Join(room, guestId).Some? ==>
      var joined := Join(room, guestId).value;
      && joined.guestId == Some(guestId) && joined.status == Ready
      && joined.roomId == room.roomId && joined.hostId == room.hostId
      && joined.gameMode == room.gameMode && joined.createdAt == room.createdAt
  {
  }

  /** A room that has been joined refuses every later join. */
  lemma JoinOnce(room: Room, guestId: string, otherGuestId: string)
    requires Join(room, guestId).Some?
    ensures Join(Join(room, guestId).value, otherGuestId) == None
  {
  }

  /** One room. joinRoom sets its guest and status in place. */
  class GameRoom {
    const roomId: string
    const hostId: string
    const gameMode: RoomMode
    const createdAt: int
    var guestId: Option<string>
    var status: RoomStatus

    function View(): Room
      reads this
    {
      Room(roomId, hostId, guestId, gameMode, createdAt, status)
    }

    /** The room createRoom builds: no guest yet, waiting. */
    constructor (roomId: string, hostId: string, gameMode: RoomMode, createdAt: int)
      ensures View() == Room(roomId, hostId, None, gameMode, createdAt, Waiting)
    {
      this.roomId := roomId;
      this.hostId := hostId;
      this.gameMode := gameMode;
      this.createdAt := createdAt;
      guestId := None;
      status := Waiting;
    }
  }

  /** Whether `room` is older than an hour at time `now`. */
  predicate Expired(room: GameRoom, now: int)
  {
    now - room.createdAt > OneHour
  }

  /** No key occurs twice in `ks`. */
  predicate Distinct(ks: seq<string>)
  {
    ks == [] || (ks[0] !in ks[1..] && Distinct(ks[1..]))
  }

  /** A key not yet present may be appended. */
  lemma {:induction false} DistinctAppend(ks: seq<string>, k: string)
    requires Distinct(ks) && k !in ks
    ensures Distinct(ks + [k])
  {
    if ks != [] {
      assert (ks + [k])[1..] == ks[1..] + [k];
      DistinctAppend(ks[1..], k);
    }
  }

  /** `ks` without `k`, the rest in order. */
  function Without(ks: seq<string>, k: string): (r: seq<string>)
  {
    if ks == [] then []
    else if ks[0] == k then Without(ks[1..], k)
    else [ks[0]] + Without(ks[1..], k)
  }

  lemma {:induction false} WithoutMembers(ks: seq<string>, k: string)
    ensures forall x :: x in Without(ks, k) <==> x in ks && x != k
  {
    if ks != [] {
      WithoutMembers(ks[1..], k);
      assert ks == [ks[0]] + ks[1..];
    }
  }

  /** Removing a key keeps the other keys distinct. */
  lemma {:induction false} WithoutDistinct(ks: seq<string>, k: string)
    requires Distinct(ks)
    ensures Distinct(Without(ks, k))
  {
    if ks != [] {
      WithoutDistinct(ks[1..], k);
      if ks[0] != k {
        var r := Without(ks[1..], k);
        WithoutMembers(ks[1..], k);
        assert ([ks[0]] + r)[1..] == r;
      }
    }
  }

  lemma {:induction false} WithoutAbsent(ks: seq<string>, k: string)
    requires k !in ks
    ensures Without(ks, k) == ks
  {
    if ks != [] {
      assert ks == [ks[0]] + ks[1..];
      WithoutAbsent(ks[1..], k);
    }
  }

  /** The key at a position of a distinct sequence occurs nowhere else. */
  lemma {:induction false} DistinctSplice(a: seq<string>, k: string, b: seq<string>)
    requires Distinct(a + [k] + b)
    ensures k !in a && k !in b
  {
    if a == [] {
      assert (a + [k] + b)[1..] == b;
    } else {
      assert (a + [k] + b)[1..] == a[1..] + [k] + b;
      DistinctSplice(a[1..], k, b);
      assert a == [a[0]] + a[1..];
    }
  }

  /** Removing the one occurrence of `k` splices it out. */
  lemma {:induction false} WithoutSplice(a: seq<string>, k: string, b: seq<string>)
    requires k !in a && k !in b
    ensures Without(a + [k] + b, k) == a + b
  {
    if a == [] {
      assert (a + [k] + b)[1..] == b;
      WithoutAbsent(b, k);
    } else {
      assert (a + [k] + b)[1..] == a[1..] + [k] + b;
      WithoutSplice(a[1..], k, b);
      assert a + b == [a[0]] + (a[1..] + b);
    }
  }

  /** The keys of `ids` whose rooms are not expired at `now`, in order (a key
      with no room, which a valid store never has, is kept). */
  function Unexpired(ids: seq<string>, rooms: map<string, GameRoom>, now: int): seq<string>
  {
    if ids == [] then []
    else
      var last := ids[|ids| - 1];
      var expired := last in rooms && Expired(rooms[last], now);
      Unexpired(ids[..|ids| - 1], rooms, now) + (if expired then [] else [last])
  }

  /** The sweep keeps exactly the keys whose rooms are at most an hour old. */
  lemma {:induction false} UnexpiredMembers(ids: seq<string>, rooms: map<string, GameRoom>, now: int)
    requires forall k :: k in ids ==> k in rooms
    ensures forall k :: k in Unexpired(ids, rooms, now) <==> k in ids && !Expired(rooms[k], now)
  {
    if ids != [] {
      UnexpiredMembers(ids[..|ids| - 1], rooms, now);
      assert ids == ids[..|ids| - 1] + [ids[|ids| - 1]];
    }
  }

  /** Sweeping at `earlier` and then at `later` is sweeping once at `later`;
      in particular a second sweep at the same time deletes nothing. */
  lemma {:induction false} UnexpiredLater(ids: seq<string>, rooms: map<string, GameRoom>, earlier: int, later: int)
    requires earlier <= later
    ensures Unexpired(Unexpired(ids, rooms, earlier), rooms, later) == Unexpired(ids, rooms, later)
  {
    if ids != [] {
      var front := ids[..|ids| - 1];
      var last := ids[|ids| - 1];
      UnexpiredLater(front, rooms, earlier, later);
      var swept := Unexpired(front, rooms, earlier);
      if last in rooms && Expired(rooms[last], earlier) {
        assert Unexpired(ids, rooms, earlier) == swept;
        assert Expired(rooms[last], later);
      } else {
        assert Unexpired(ids, rooms, earlier) == swept + [last];
        assert (swept + [last])[..|swept + [last]| - 1] == swept;
      }
    }
  }

  /** The rooms of `ids` that are waiting for a guest, in order. */
  function WaitingRooms(ids: seq<string>, rooms: map<string, GameRoom>): seq<GameRoom>
    requires forall k :: k in ids ==> k in rooms
    reads rooms.Values
  {
    if ids == [] then []
    else
      var room := rooms[ids[|ids| - 1]];
      WaitingRooms(ids[..|ids| - 1], rooms) + (if room.status == Waiting then [room] else [])
  }

  /** The listing holds exactly the waiting rooms stored under `ids`. */
  lemma {:induction false} WaitingRoomsMembers(ids: seq<string>, rooms: map<string, GameRoom>)
    requires forall k :: k in ids ==> k in rooms
    ensures forall room :: room in WaitingRooms(ids, rooms) ==>
      room.status == Waiting && exists k :: k in ids && rooms[k] == room
    ensures forall k :: k in ids && rooms[k].status == Waiting ==> rooms[k] in WaitingRooms(ids, rooms)
  {
    if ids != [] {
      WaitingRoomsMembers(ids[..|ids| - 1], rooms);
      assert ids == ids[..|ids| - 1] + [ids[|ids| - 1]];
    }
  }

  /** The `rooms` record: rooms keyed by id, with the keys in the order they
      were first stored, which is the order Object.keys and Object.values
      follow for these keys. */
  class LobbyStore {
    var rooms: map<string, GameRoom>
    var keys: seq<string>

    /** The key order lists every stored room once, and each room is stored
        under its own id. */
    ghost predicate Valid()
      reads this
    {
      && Distinct(keys)
      && (forall k :: k in rooms <==> k in keys)
      && (forall k :: k in rooms ==> rooms[k].roomId == k)
    }

    constructor ()
      ensures Valid() && rooms == map[] && keys == []
    {
      rooms := map[];
      keys := [];
    }

    /** createRoom: a new waiting room without a guest, stored under `roomId`;
        `now` is the clock reading, `roomId` the fresh id. */
    method CreateRoom(roomId: string, hostId: string, gameMode: RoomMode, now: int)
      returns (room: GameRoom)
      requires Valid()
      modifies this
      ensures Valid() && fresh(room)
      ensures room.View() == Room(roomId, hostId, None, gameMode, now, Waiting)
      ensures rooms == old(rooms)[roomId := room]
      ensures keys == if roomId in old(rooms) then old(keys) else old(keys) + [roomId]
    {
      room := new GameRoom(roomId, hostId, gameMode, now);
      if roomId !in rooms {
        DistinctAppend(keys, roomId);
        keys := keys + [roomId];
      }
      rooms := rooms[roomId := room];
    }

    /** `delete rooms[roomId]`. */
    method Remove(roomId: string)
      requires Valid()
      modifies this
      ensures Valid()
      ensures rooms == old(rooms) - {roomId}
      ensures keys == Without(old(keys), roomId)
    {
      WithoutMembers(keys, roomId);
      WithoutDistinct(keys, roomId);
      rooms := rooms - {roomId};
      keys := Without(keys, roomId);
    }

    /** One step of the forEach of getRooms: the room under `roomId` is
        deleted when it is older than an hour at `now`. */
    method SweepKey(roomId: string, now: int, ghost before: seq<string>, ghost after: seq<string>)
      requires Valid() && keys == before + [roomId] + after
      modifies this
      ensures Valid()
      ensures roomId in old(rooms)
      ensures var expired := Expired(old(rooms)[roomId], now);
        && keys == before + (if expired then [] else [roomId]) + after
        && rooms == if expired then old(rooms) - {roomId} else old(rooms)
    {
      assert keys[|before|] == roomId;
      if now - rooms[roomId].createdAt > OneHour {
        DistinctSplice(before, roomId, after);
        Remove(roomId);
        WithoutSplice(before, roomId, after);
      } else {
        assert keys == before + [roomId] + after;
      }
    }

    /** One turn of the forEach of getRooms, over the keys `ids` it started
        from, with `stored` the rooms it started from. */
    method SweepStep(ids: seq<string>, i: nat, now: int, ghost stored: map<string, GameRoom>)
      requires Valid() && i < |ids|
      requires keys == Unexpired(ids[..i], stored, now) + ids[i..]
      requires forall k :: k in rooms ==> k in stored && rooms[k] == stored[k]
      modifies this
      ensures Valid()
      ensures keys == Unexpired(ids[..i + 1], stored, now) + ids[i + 1..]
      ensures forall k :: k in rooms ==> k in stored && rooms[k] == stored[k]
    {
      ghost var swept := Unexpired(ids[..i], stored, now);
      assert ids[i..] == [ids[i]] + ids[i + 1..];
      assert ids[..i + 1][..i] == ids[..i];
      SweepKey(ids[i], now, swept, ids[i + 1..]);
    }

    /** The forEach of getRooms: every room older than an hour at `now` is
        deleted, the others stay where they were. */
    method Sweep(now: int)
      requires Valid()
      modifies this
      ensures Valid()
      ensures keys == Unexpired(old(keys), old(rooms), now)
      ensures forall k :: k in rooms ==> k in old(rooms) && rooms[k] == old(rooms)[k]
    {
      var ids := keys;
      ghost var stored := rooms;
      var i := 0;
      while i < |ids|
        invariant 0 <= i <= |ids|
        invariant Valid()
        invariant keys == Unexpired(ids[..i], stored, now) + ids[i..]
        invariant forall k :: k in rooms ==> k in stored && rooms[k] == stored[k]
      {
        SweepStep(ids, i, now, stored);
        i := i + 1;
      }
      assert ids[..i] == ids;
    }

    /** getRooms: deletes every room older than an hour at `now`, then lists
        the waiting rooms that are left, in key order. */
    method GetRooms(now: int) returns (open: seq<GameRoom>)
      requires Valid()
      modifies this
      ensures Valid()
      ensures keys == Unexpired(old(keys), old(rooms), now)
      ensures forall k :: k in rooms <==> k in old(rooms) && !Expired(old(rooms)[k], now)
      ensures forall k :: k in rooms ==> rooms[k] == old(rooms)[k]
      ensures open == WaitingRooms(keys, rooms)
      ensures forall room :: room in open ==> room.status == Waiting && !Expired(room, now)
    {
      UnexpiredMembers(keys, rooms, now);
      Sweep(now);
      open := WaitingRooms(keys, rooms);
      WaitingRoomsMembers(keys, rooms);
    }

    /** getRoom: the room stored under `roomId`, if any. */
    method GetRoom(roomId: string) returns (r: Option<GameRoom>)
      requires Valid()
      ensures r.Some? <==> roomId in rooms
      ensures r.Some? ==> r.value == rooms[roomId] && r.value.roomId == roomId
    {
      if roomId in rooms {
        return Some(rooms[roomId]);
      }
      return None;
    }

    /** joinRoom: the guest joins a waiting room that has none, which becomes
        ready; otherwise nothing changes and the answer is null. */
    method JoinRoom(roomId: string, guestId: string) returns (r: Option<GameRoom>)
      requires Valid()
      modifies if roomId in rooms then {rooms[roomId]} else {}
      ensures Valid()
      ensures roomId !in rooms ==> r == None
      ensures roomId in rooms ==>
        match Join(old(rooms[roomId].View()), guestId)
        case None => r == None && rooms[roomId].View() == old(rooms[roomId].View())
        case Some(joined) => r == Some(rooms[roomId]) && rooms[roomId].View() == joined
    {
      if roomId !in rooms {
        return None;
      }
      var room := rooms[roomId];
      if room.status == Waiting && !HasGuest(room.guestId) {
        room.guestId := Some(guestId);
        room.status := Ready;
        return Some(room);
      }
      return None;
    }

    /** deleteRoom: removes `roomId`, and does nothing when it is absent. */
    method DeleteRoom(roomId: string)
      requires Valid()
      modifies this
      ensures Valid()
      ensures rooms == old(rooms) - {roomId}
      ensures keys == Without(old(keys), roomId)
      ensures roomId !in old(rooms) ==> keys == old(keys) && rooms == old(rooms)
    {
      if roomId in rooms {
        Remove(roomId);
      } else {
        WithoutAbsent(keys, roomId);
      }
    }
  }
}
