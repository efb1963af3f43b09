/** The durable side of the `chat` branch: find-or-create the room, then append the chat record. */
module Persistence {
  import opened Wrappers
  import opened Json

  /** A stored room: its store-assigned id, its slug and the user who caused its creation. */
  datatype Room = Room(id: nat, slug: Value, adminId: string)

  /** A stored chat record `{roomId, message, userId}`. */
  datatype ChatRecord = ChatRecord(roomId: nat, message: Value, userId: string)

  /** Which of the three store calls of one `chat` frame throw. */
  datatype Faults = Faults(find: bool, create: bool, append: bool)

  /** The store after the `try` block, and whether that block ran to its end. */
  datatype Persisted = Persisted(rooms: seq<Room>, chats: seq<ChatRecord>, ok: bool)

  /** `room.findFirst({where: {slug}})`: the first stored room with that slug, if any. */
  function FirstWithSlug(rooms: seq<Room>, slug: Value): (r: Option<Room>)
    ensures r.Some? ==> r.value in rooms && r.value.slug == slug
    ensures r.None? <==> forall i :: 0 <= i < |rooms| ==> rooms[i].slug != slug
  {
    if |rooms| == 0 then None
    else if rooms[0].slug == slug then Some(rooms[0])
    else FirstWithSlug(rooms[1..], slug)
  }

  /** The room `room.create` makes: the next id in sequence, the slug, the given admin. */
  function NewRoom(rooms: seq<Room>, slug: Value, adminId: string): Room
  {
    Room(|rooms| + 1, slug, adminId)
  }

  /** Ids are assigned 1, 2, 3, ... in creation order. */
  predicate IdsInSequence(rooms: seq<Room>)
  {
    forall i :: 0 <= i < |rooms| ==> rooms[i].id == i + 1
  }

  /** The store's unique constraint on slugs. */
  predicate SlugsUnique(rooms: seq<Room>)
  {
    forall i, j :: 0 <= i < j < |rooms| ==> rooms[i].slug != rooms[j].slug
  }

  /** Every chat record refers to a stored room. */
  predicate ChatsReferToRooms(rooms: seq<Room>, chats: seq<ChatRecord>)
  {
    forall c :: c in chats ==> 1 <= c.roomId <= |rooms|
  }

  /** The store invariant the relay keeps. */
  predicate StoreConsistent(rooms: seq<Room>, chats: seq<ChatRecord>)
  {
    IdsInSequence(rooms) && SlugsUnique(rooms) && ChatsReferToRooms(rooms, chats)
  }

  /** The append step: `chat.create({data: {roomId: room.id, message, userId}})`. */
  function AppendChat(rooms: seq<Room>, chats: seq<ChatRecord>, room: Room, message: Value,
                      userId: string, faults: Faults): Persisted
  {
    if faults.append then Persisted(rooms, chats, false)
    else Persisted(rooms, chats + [ChatRecord(room.id, message, userId)], true)
  }

  /**
   * The `try` block up to the broadcast: find the room by slug; if there is
   * none, create it with the sender as admin; then append the chat record.
   * The first store call that throws ends the block, keeping what earlier calls stored.
   */
  function PersistChat(rooms: seq<Room>, chats: seq<ChatRecord>, slug: Value, message: Value,
                       userId: string, faults: Faults): Persisted
  {
    if faults.find then Persisted(rooms, chats, false)
    else
      match FirstWithSlug(rooms, slug)
      case Some(room) => AppendChat(rooms, chats, room, message, userId, faults)
      case None =>
        if faults.create then Persisted(rooms, chats, false)
        else
          var room := NewRoom(rooms, slug, userId);
          AppendChat(rooms + [room], chats, room, message, userId, faults)
  }

  /** The number of stored rooms with slug `slug`. */
  function RoomsWithSlug(rooms: seq<Room>, slug: Value): nat
  {
    if |rooms| == 0 then 0
    else (if rooms[0].slug == slug then 1 else 0) + RoomsWithSlug(rooms[1..], slug)
  }

  /** The block runs to its end exactly when no store call it reaches throws. */
  lemma PersistOkIff(rooms: seq<Room>, chats: seq<ChatRecord>, slug: Value, message: Value,
                     userId: string, faults: Faults)
    ensures PersistChat(rooms, chats, slug, message, userId, faults).ok <==>
      !faults.find && (FirstWithSlug(rooms, slug).Some? || !faults.create) && !faults.append
  {
  }

  /**
   * The store only grows: at most one room and at most one chat record are
   * added, at the end, and the chat record is added exactly when the block succeeds.
   */
  lemma PersistOnlyAppends(rooms: seq<Room>, chats: seq<ChatRecord>, slug: Value, message: Value,
                           userId: string, faults: Faults)
    ensures var p := PersistChat(rooms, chats, slug, message, userId, faults);
      && (p.rooms == rooms || p.rooms == rooms + [NewRoom(rooms, slug, userId)])
      && (p.ok ==> |p.chats| == |chats| + 1 && p.chats[..|chats|] == chats)
      && (!p.ok ==> p.chats == chats)
  {
    var p := PersistChat(rooms, chats, slug, message, userId, faults);
    if p.ok { assert p.chats[..|chats|] == chats; }
  }

  /** With an existing room for the slug, no room is created and the record is filed under it. */
  lemma PersistExistingRoom(rooms: seq<Room>, chats: seq<ChatRecord>, slug: Value, message: Value,
                            userId: string, faults: Faults, room: Room)
    requires !faults.find && room in rooms && room.slug == slug
    requires SlugsUnique(rooms)
    ensures var p := PersistChat(rooms, chats, slug, message, userId, faults);
      && p.rooms == rooms
      && p.chats == (if faults.append then chats else chats + [ChatRecord(room.id, message, userId)])
  {
    var found := FirstWithSlug(rooms, slug);
    assert found.Some?;
    var i :| 0 <= i < |rooms| && rooms[i] == room;
    var j :| 0 <= j < |rooms| && rooms[j] == found.value;
    assert i == j;
  }

  /**
   * With no room for the slug and a working `create`, exactly one room is
   * created, with the sender as admin, and the record is filed under its id.
   */
  lemma PersistUnknownRoom(rooms: seq<Room>, chats: seq<ChatRecord>, slug: Value, message: Value,
                           userId: string, faults: Faults)
    requires !faults.find && !faults.create
    requires forall i :: 0 <= i < |rooms| ==> rooms[i].slug != slug
    ensures var p := PersistChat(rooms, chats, slug, message, userId, faults);
      && p.rooms == rooms + [Room(|rooms| + 1, slug, userId)]
      && RoomsWithSlug(p.rooms, slug) == 1
      && p.chats == (if faults.append then chats else chats + [ChatRecord(|rooms| + 1, message, userId)])
  {
    NoneWithSlug(rooms, slug);
    RoomsWithSlugAppend(rooms, Room(|rooms| + 1, slug, userId), slug);
  }

  lemma {:induction false} NoneWithSlug(rooms: seq<Room>, slug: Value)
    requires forall i :: 0 <= i < |rooms| ==> rooms[i].slug != slug
    ensures RoomsWithSlug(rooms, slug) == 0
  {
    if |rooms| > 0 {
      NoneWithSlug(rooms[1..], slug);
    }
  }

  lemma {:induction false} RoomsWithSlugAppend(rooms: seq<Room>, room: Room, slug: Value)
    ensures RoomsWithSlug(rooms + [room], slug) == RoomsWithSlug(rooms, slug) + (if room.slug == slug then 1 else 0)
  {
    if |rooms| > 0 {
      assert (rooms + [room])[1..] == rooms[1..] + [room];
      RoomsWithSlugAppend(rooms[1..], room, slug);
    }
  }

  /** Under the store invariant, a slug names at most one room. */
  lemma {:induction false} UniqueSlugCount(rooms: seq<Room>, slug: Value)
    requires SlugsUnique(rooms)
    ensures RoomsWithSlug(rooms, slug) <= 1
  {
    if |rooms| > 0 {
      UniqueSlugCount(rooms[1..], slug);
      if rooms[0].slug == slug {
        NoneWithSlug(rooms[1..], slug);
      }
    }
  }

  /**
   * Find-or-create keeps the store consistent, and a successful block files
   * its record under the one room that carries the frame's slug.
   */
  lemma PersistKeepsConsistent(rooms: seq<Room>, chats: seq<ChatRecord>, slug: Value, message: Value,
                               userId: string, faults: Faults)
    requires StoreConsistent(rooms, chats)
    ensures var p := PersistChat(rooms, chats, slug, message, userId, faults);
      && StoreConsistent(p.rooms, p.chats)
      && (p.ok ==> var c := p.chats[|p.chats| - 1];
           && c == ChatRecord(c.roomId, message, userId)
           && p.rooms[c.roomId - 1].slug == slug
           && RoomsWithSlug(p.rooms, slug) == 1)
  {
    var p := PersistChat(rooms, chats, slug, message, userId, faults);
    if !faults.find {
      match FirstWithSlug(rooms, slug)
      case Some(room) =>
        var i :| 0 <= i < |rooms| && rooms[i] == room;
        assert room.id == i + 1;
        if p.ok {
          UniqueSlugCount(rooms, slug);
          if RoomsWithSlug(rooms, slug) == 0 {
            assert rooms[i].slug == slug;
            SomeWithSlug(rooms, slug, i);
          }
        }
      case None =>
        if !faults.create {
          var room := NewRoom(rooms, slug, userId);
          assert SlugsUnique(rooms + [room]);
          PersistUnknownRoom(rooms, chats, slug, message, userId, faults);
        }
    }
  }

  lemma {:induction false} SomeWithSlug(rooms: seq<Room>, slug: Value, i: nat)
    requires i < |rooms| && rooms[i].slug == slug
    ensures RoomsWithSlug(rooms, slug) >= 1
  {
    if i > 0 {
      SomeWithSlug(rooms[1..], slug, i - 1);
    }
  }
}
