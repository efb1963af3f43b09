/**
 * The relay process as it runs: the module-level `users` array, the store
 * client, and the connection and message handlers that update them in place.
 */
module Relay {
  import opened Wrappers
  import opened Json
  import opened Auth
  import opened Sessions
  import opened Router
  import opened Persistence
  import opened RelaySpec

  /** The durable store: rooms and chat records, each call of which may throw. */
  class Store {
    var rooms: seq<Room>
    var chats: seq<ChatRecord>

    constructor (rooms: seq<Room>, chats: seq<ChatRecord>)
      ensures this.rooms == rooms && this.chats == chats
    {
      this.rooms := rooms;
      this.chats := chats;
    }

    /** `room.findFirst({where: {slug}})`; `fail` says the call throws. */
    method FindRoomBySlug(slug: Value, fail: bool) returns (r: Result<Option<Room>>)
      ensures fail <==> r.Failure?
      ensures r.Success? && r.value.Some? ==> r.value.value in rooms && r.value.value.slug == slug
      ensures r.Success? && r.value.None? ==> forall i :: 0 <= i < |rooms| ==> rooms[i].slug != slug
      ensures r.Success? ==> r.value == FirstWithSlug(rooms, slug)
    {
      if fail {
        return Failure("findFirst failed");
      }
      r := Success(FirstWithSlug(rooms, slug));
    }

    /**
     * `room.create({data: {slug, adminId}})`. It throws when `fail` says so and
     * when a room with that slug exists (the store's unique constraint).
     */
    method CreateRoom(slug: Value, adminId: string, fail: bool) returns (r: Result<Room>)
      modifies this
      ensures r.Failure? <==> fail || FirstWithSlug(old(rooms), slug).Some?
      ensures r.Failure? ==> rooms == old(rooms)
      ensures r.Success? ==> r.value == NewRoom(old(rooms), slug, adminId) && rooms == old(rooms) + [r.value]
      ensures chats == old(chats)
    {
      if fail || FirstWithSlug(rooms, slug).Some? {
        return Failure("room.create failed");
      }
      var room := NewRoom(rooms, slug, adminId);
      rooms := rooms + [room];
      r := Success(room);
    }

    /** `chat.create({data: {roomId, message, userId}})`; `fail` says the call throws. */
    method AppendChat(roomId: nat, message: Value, userId: string, fail: bool) returns (r: Result<ChatRecord>)
      modifies this
      ensures r.Failure? <==> fail
      ensures r.Failure? ==> chats == old(chats)
      ensures r.Success? ==> r.value == ChatRecord(roomId, message, userId) && chats == old(chats) + [r.value]
      ensures rooms == old(rooms)
    {
      if fail {
        return Failure("chat.create failed");
      }
      var record := ChatRecord(roomId, message, userId);
      chats := chats + [record];
      r := Success(record);
    }
  }

  /** The relay server: the session registry, the sends made and the sockets closed. */
  class Server {
    var users: seq<User>
    var outbox: seq<Delivery>
    var closed: seq<Handle>
    const store: Store

    /** The state of the whole relay, as the step functions of `RelaySpec` see it. */
    function Model(): World
      reads this, store
    {
      World(users, store.rooms, store.chats, outbox, closed)
    }

    constructor (store: Store)
      ensures this.store == store
      ensures users == [] && outbox == [] && closed == []
    {
      this.store := store;
      users := [];
      outbox := [];
      closed := [];
    }

    /** The `connection` handler for socket `ws`; `token` is the URL's `token` parameter. */
    method OnConnection(ws: Handle, url: Option<string>, token: Option<string>,
                        verify: string -> VerifyOutcome)
      modifies this
      ensures Model() == Connect(old(Model()), ws, url, token, verify)
    {
      if url.None? || url.value == "" {
        return;
      }
      var userId := CheckUser(verify(TokenOf(token)));
      if userId.None? {
        closed := closed + [ws];
        return;
      }
      users := users + [User(ws, [], userId.value)];
    }

    /** The `message` handler of connection `ws`, registered for `userId`. */
    method OnMessage(ws: Handle, userId: string, frame: Frame, faults: Faults)
      modifies this, store
      ensures Model() == RelaySpec.OnMessage(old(Model()), ws, userId, frame, faults)
    {
      if frame.kind == JoinRoomKind {
        var i := FindIndex(users, ws);
        if i.Some? {
          users := users[i.value := users[i.value].(rooms := users[i.value].rooms + [frame.roomId])];
        }
      }
      if frame.kind == LeaveRoomKind {
        var i := FindIndex(users, ws);
        if i.None? {
          return;
        }
        users := users[i.value := users[i.value].(rooms := KeepEqual(users[i.value].rooms, frame.room))];
      }
      if frame.kind == ChatKind {
        var slug, message := frame.roomId, frame.message;
        var found := store.FindRoomBySlug(slug, faults.find);
        if found.Failure? {
          return;
        }
        var room: Room;
        if found.value.None? {
          var created := store.CreateRoom(slug, userId, faults.create);
          if created.Failure? {
            return;
          }
          room := created.value;
        } else {
          room := found.value.value;
        }
        var appended := store.AppendChat(room.id, message, userId, faults.append);
        if appended.Failure? {
          return;
        }
        Broadcast(slug, ChatOut(message, slug));
      }
    }

    /** `users.forEach(...)`: send `f` to every entry whose rooms include `slug`, in order. */
    method Broadcast(slug: Value, f: OutFrame)
      modifies this`outbox
      ensures outbox == old(outbox) + Deliveries(users, slug, f)
    {
      var i := 0;
      while i < |users|
        invariant 0 <= i <= |users|
        invariant outbox == old(outbox) + Deliveries(users[..i], slug, f)
      {
        assert users[..i + 1][..i] == users[..i];
        if slug in users[i].rooms {
          outbox := outbox + [Delivery(users[i].ws, f)];
        }
        i := i + 1;
      }
      assert users[..|users|] == users;
    }
  }
}
