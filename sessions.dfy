/** The session registry's entries and the membership updates of `join_room` and `leave_room`. */
module Sessions {
  import opened Wrappers
  import opened Json

  /** The identity of one WebSocket connection. */
  type Handle = nat

  /** One registry entry `{ws, rooms, userId}`; `rooms` keeps join order and duplicates. */
  datatype User = User(ws: Handle, rooms: seq<Value>, userId: string)

  /** `users.find(x => x.ws === ws)`, as the index of the first entry bound to `ws`. */
  function FindIndex(users: seq<User>, ws: Handle): (r: Option<nat>)
    ensures r.Some? ==> r.value < |users| && users[r.value].ws == ws
    ensures r.Some? ==> forall j :: 0 <= j < r.value ==> users[j].ws != ws
    ensures r.None? <==> forall j :: 0 <= j < |users| ==> users[j].ws != ws
  {
    if |users| == 0 then None
    else if users[0].ws == ws then Some(0)
    else
      match FindIndex(users[1..], ws)
      case None => None
      case Some(i) => Some(i + 1)
  }

  /** `user?.rooms.push(roomId)` on the first entry bound to `ws`; no entry, no change. */
  function Join(users: seq<User>, ws: Handle, roomId: Value): seq<User>
  {
    match FindIndex(users, ws)
    case None => users
    case Some(i) => users[i := users[i].(rooms := users[i].rooms + [roomId])]
  }

  /** `rooms.filter(x => x === room)`: the members of `rooms` EQUAL to `room`, in order. */
  function KeepEqual(rooms: seq<Value>, room: Value): (r: seq<Value>)
    ensures forall k :: 0 <= k < |r| ==> r[k] == room
    ensures |r| == multiset(rooms)[room]
    ensures multiset(r) <= multiset(rooms)
  {
    if |rooms| == 0 then []
    else
      assert rooms == [rooms[0]] + rooms[1..];
      (if rooms[0] == room then [rooms[0]] else []) + KeepEqual(rooms[1..], room)
  }

  /** The `leave_room` branch as written: the entry's rooms become `KeepEqual(rooms, room)`. */
  function Leave(users: seq<User>, ws: Handle, room: Value): seq<User>
  {
    match FindIndex(users, ws)
    case None => users
    case Some(i) => users[i := users[i].(rooms := KeepEqual(users[i].rooms, room))]
  }

  /** Both updates touch at most the rooms of one entry: handles and user ids persist. */
  predicate SameIdentities(before: seq<User>, after: seq<User>)
  {
    |after| == |before| &&
    forall j :: 0 <= j < |before| ==> after[j].ws == before[j].ws && after[j].userId == before[j].userId
  }

  /**
   * `join_room` appends the room to the first entry bound to `ws`, without
   * de-duplication: that entry's rooms grow by exactly one element at the end,
   * and every other entry is untouched.
   */
  lemma JoinAppendsExactlyOne(users: seq<User>, ws: Handle, roomId: Value)
    ensures SameIdentities(users, Join(users, ws, roomId))
    ensures FindIndex(users, ws).None? ==> Join(users, ws, roomId) == users
    ensures FindIndex(users, ws).Some? ==>
      var i, r := FindIndex(users, ws).value, Join(users, ws, roomId);
      && r[i].rooms == users[i].rooms + [roomId]
      && multiset(r[i].rooms)[roomId] == multiset(users[i].rooms)[roomId] + 1
      && forall j :: 0 <= j < |users| && j != i ==> r[j] == users[j]
  {
  }

  /**
   * `leave_room` as written: the named entry keeps only the rooms equal to the
   * frame's `room` field (each of them), and nothing else changes.
   */
  lemma LeaveKeepsOnlyEqualRooms(users: seq<User>, ws: Handle, room: Value)
    ensures SameIdentities(users, Leave(users, ws, room))
    ensures FindIndex(users, ws).None? ==> Leave(users, ws, room) == users
    ensures FindIndex(users, ws).Some? ==>
      var i, r := FindIndex(users, ws).value, Leave(users, ws, room);
      && (forall x :: x in r[i].rooms ==> x == room)
      && multiset(r[i].rooms)[room] == multiset(users[i].rooms)[room]
      && forall j :: 0 <= j < |users| && j != i ==> r[j] == users[j]
  {
    if FindIndex(users, ws).Some? {
      var i := FindIndex(users, ws).value;
      var kept := KeepEqual(users[i].rooms, room);
      assert multiset(kept)[room] == |kept| by {
        EveryElementEqualCount(kept, room);
      }
    }
  }

  /** A sequence all of whose elements are `v` holds `v` exactly `|s|` times. */
  lemma {:induction false} EveryElementEqualCount(s: seq<Value>, v: Value)
    requires forall k :: 0 <= k < |s| ==> s[k] == v
    ensures multiset(s)[v] == |s|
  {
    if |s| > 0 {
      assert s == [s[0]] + s[1..];
      EveryElementEqualCount(s[1..], v);
    }
  }

  /** The intended leave: `rooms.filter(x => x !== room)`. */
  function RemoveRoom(rooms: seq<Value>, room: Value): (r: seq<Value>)
    ensures room !in r
    ensures forall x :: x != room ==> multiset(r)[x] == multiset(rooms)[x]
  {
    if |rooms| == 0 then []
    else
      assert rooms == [rooms[0]] + rooms[1..];
      (if rooms[0] == room then [] else [rooms[0]]) + RemoveRoom(rooms[1..], room)
  }

  /** The intended `leave_room`: remove the frame's `roomId` from the sender's entry. */
  function LeaveIntended(users: seq<User>, ws: Handle, roomId: Value): seq<User>
  {
    match FindIndex(users, ws)
    case None => users
    case Some(i) => users[i := users[i].(rooms := RemoveRoom(users[i].rooms, roomId))]
  }
}
