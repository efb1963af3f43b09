/**
 * The relay as a state machine over plain values: the registry, the store,
 * the sends made, and the sockets closed. One handler step at a time.
 */
module RelaySpec {
  import opened Wrappers
  import opened Json
  import opened Auth
  import opened Sessions
  import opened Router
  import opened Persistence

  /** Everything one handler step can observe or change. */
  datatype World = World(
    users: seq<User>,
    rooms: seq<Room>,
    chats: seq<ChatRecord>,
    outbox: seq<Delivery>,
    closed: seq<Handle>)

  /**
   * The `connection` handler: without a URL it returns at once; with a token
   * `checkUser` rejects it closes the socket; otherwise it registers the
   * connection with no rooms.
   */
  function Connect(w: World, ws: Handle, url: Option<string>, token: Option<string>,
                   verify: string -> VerifyOutcome): World
  {
    if url.None? || url.value == "" then w
    else
      match Authenticate(verify, token)
      case None => w.(closed := w.closed + [ws])
      case Some(userId) => w.(users := w.users + [User(ws, [], userId)])
  }

  /** The `chat` branch as written: persist first, broadcast only if every store call succeeded. */
  function Chat(w: World, userId: string, slug: Value, message: Value, faults: Faults): World
  {
    var p := PersistChat(w.rooms, w.chats, slug, message, userId, faults);
    w.(rooms := p.rooms, chats := p.chats,
       outbox := if p.ok then w.outbox + Deliveries(w.users, slug, ChatOut(message, slug)) else w.outbox)
  }

  /**
   * The `message` handler of the connection `ws` registered for `userId`.
   * A frame of any other type changes nothing.
   */
  function OnMessage(w: World, ws: Handle, userId: string, frame: Frame, faults: Faults): World
  {
    if frame.kind == JoinRoomKind then w.(users := Join(w.users, ws, frame.roomId))
    else if frame.kind == LeaveRoomKind then w.(users := Leave(w.users, ws, frame.room))
    else if frame.kind == ChatKind then Chat(w, userId, frame.roomId, frame.message, faults)
    else w
  }

  /** The two ways a connection is turned away, and what acceptance adds. */
  lemma ConnectOutcomes(w: World, ws: Handle, url: Option<string>, token: Option<string>,
                        verify: string -> VerifyOutcome)
    ensures var w' := Connect(w, ws, url, token, verify);
      && w'.rooms == w.rooms && w'.chats == w.chats && w'.outbox == w.outbox
      && ((url.None? || url == Some("")) ==> w' == w)
      && (url.Some? && url.value != "" && Authenticate(verify, token).None? ==>
            w'.users == w.users && w'.closed == w.closed + [ws])
      && (url.Some? && url.value != "" && Authenticate(verify, token).Some? ==>
            w'.users == w.users + [User(ws, [], Authenticate(verify, token).value)] &&
            w'.closed == w.closed)
  {
  }

  /** A frame never changes the registry's length, its handles or its user ids. */
  lemma OnMessageKeepsIdentities(w: World, ws: Handle, userId: string, frame: Frame, faults: Faults)
    ensures SameIdentities(w.users, OnMessage(w, ws, userId, frame, faults).users)
    ensures OnMessage(w, ws, userId, frame, faults).closed == w.closed
  {
    JoinAppendsExactlyOne(w.users, ws, frame.roomId);
    LeaveKeepsOnlyEqualRooms(w.users, ws, frame.room);
  }

  /**
   * No code path removes a registry entry: over any step the registry's old
   * entries keep their handles and user ids, and it never shrinks.
   */
  lemma RegistryNeverShrinks(w: World, ws: Handle, userId: string, frame: Frame, faults: Faults,
                             url: Option<string>, token: Option<string>, verify: string -> VerifyOutcome)
    ensures var w' := OnMessage(w, ws, userId, frame, faults);
      |w'.users| == |w.users|
    ensures var w' := Connect(w, ws, url, token, verify);
      && |w'.users| >= |w.users|
      && w'.users[..|w.users|] == w.users
  {
    OnMessageKeepsIdentities(w, ws, userId, frame, faults);
    var w' := Connect(w, ws, url, token, verify);
    assert w'.users[..|w.users|] == w.users;
  }

  /**
   * A `chat` frame whose store calls all succeed relays `{type: "chat",
   * message, roomId: slug}` to the room's members in registry order; a
   * `chat` frame with a failing store call sends nothing. The registry is
   * unchanged either way.
   */
  lemma ChatRelaysToMembers(w: World, ws: Handle, userId: string, frame: Frame, faults: Faults)
    requires frame.kind == ChatKind
    ensures var w' := OnMessage(w, ws, userId, frame, faults);
      var p := PersistChat(w.rooms, w.chats, frame.roomId, frame.message, userId, faults);
      var sent := w'.outbox[|w.outbox|..];
      var f := ChatOut(frame.message, frame.roomId);
      && w'.users == w.users
      && w'.outbox[..|w.outbox|] == w.outbox
      && (!p.ok ==> sent == [])
      && (p.ok ==> |sent| == |Members(w.users, frame.roomId)|)
      && (p.ok ==> forall k :: 0 <= k < |sent| ==>
            sent[k] == Delivery(w.users[Members(w.users, frame.roomId)[k]].ws, f))
  {
    var f := ChatOut(frame.message, frame.roomId);
    DeliveriesFollowMembers(w.users, frame.roomId, f);
    var w' := OnMessage(w, ws, userId, frame, faults);
    assert w'.outbox[..|w.outbox|] == w.outbox;
  }

  /** The whole-relay invariant: unique connections in the registry and a consistent store. */
  predicate Consistent(w: World)
  {
    UniqueHandles(w.users) && StoreConsistent(w.rooms, w.chats)
  }

  /** Registered handles. */
  function Handles(users: seq<User>): set<Handle>
  {
    set i | 0 <= i < |users| :: users[i].ws
  }

  /** Every frame keeps the invariant. */
  lemma OnMessageKeepsConsistent(w: World, ws: Handle, userId: string, frame: Frame, faults: Faults)
    requires Consistent(w)
    ensures Consistent(OnMessage(w, ws, userId, frame, faults))
  {
    OnMessageKeepsIdentities(w, ws, userId, frame, faults);
    PersistKeepsConsistent(w.rooms, w.chats, frame.roomId, frame.message, userId, faults);
  }

  /** A connection event for a fresh socket keeps the invariant. */
  lemma ConnectKeepsConsistent(w: World, ws: Handle, url: Option<string>, token: Option<string>,
                               verify: string -> VerifyOutcome)
    requires Consistent(w)
    requires ws !in Handles(w.users)
    ensures Consistent(Connect(w, ws, url, token, verify))
  {
    forall i | 0 <= i < |w.users| ensures w.users[i].ws != ws {
      assert w.users[i].ws in Handles(w.users);
    }
  }

  /**
   * In a consistent relay, a successful chat reaches each member connection
   * exactly once (the sender too, when it has joined) and no other connection.
   */
  lemma ChatReachesEachMemberOnce(w: World, ws: Handle, userId: string, frame: Frame, faults: Faults, h: Handle)
    requires Consistent(w) && frame.kind == ChatKind
    requires PersistChat(w.rooms, w.chats, frame.roomId, frame.message, userId, faults).ok
    ensures var w' := OnMessage(w, ws, userId, frame, faults);
      SendsTo(w'.outbox[|w.outbox|..], h) ==
        (if exists i :: 0 <= i < |w.users| && w.users[i].ws == h && frame.roomId in w.users[i].rooms then 1 else 0)
  {
    var f := ChatOut(frame.message, frame.roomId);
    var w' := OnMessage(w, ws, userId, frame, faults);
    assert w'.outbox[|w.outbox|..] == Deliveries(w.users, frame.roomId, f);
    ExactlyOncePerMember(w.users, frame.roomId, f, h);
  }

  // ---------------------------------------------------------------------------
  // The two defects of the handler, and the behaviour evidently intended.
  // ---------------------------------------------------------------------------

  /** A protocol-conformant leave frame: it names the room in `roomId`, not in `room`. */
  function LeaveFrame(slug: Value): Frame
  {
    Frame(LeaveRoomKind, slug, Undefined, Undefined)
  }

  /**
   * As written, leaving a room by its `roomId` clears every membership of the
   * sender (its `room` field is absent, and no joined room equals it).
   */
  lemma LeaveClearsAllRooms(w: World, ws: Handle, userId: string, slug: Value, faults: Faults)
    requires FindIndex(w.users, ws).Some?
    requires Undefined !in w.users[FindIndex(w.users, ws).value].rooms
    ensures OnMessage(w, ws, userId, LeaveFrame(slug), faults).users[FindIndex(w.users, ws).value].rooms == []
  {
    var i := FindIndex(w.users, ws).value;
    assert multiset(w.users[i].rooms)[Undefined] == 0;
  }

  /** The concrete case: a member of "a" and "b" leaves "a" and is left in no room. */
  lemma LeaveCounterexample()
    ensures
      var w := World([User(1, [Str("a"), Str("b")], "u1")], [], [], [], []);
      OnMessage(w, 1, "u1", LeaveFrame(Str("a")), Faults(false, false, false)).users[0].rooms == []
  {
    var w := World([User(1, [Str("a"), Str("b")], "u1")], [], [], [], []);
    LeaveClearsAllRooms(w, 1, "u1", Str("a"), Faults(false, false, false));
  }

  /** The intended `leave_room`: remove exactly the room named by `roomId`. */
  function OnLeaveIntended(w: World, ws: Handle, frame: Frame): World
  {
    w.(users := LeaveIntended(w.users, ws, frame.roomId))
  }

  /** Intended leave: the room is gone from the sender's rooms, every other room stays. */
  lemma LeaveIntendedRemovesOnlyThatRoom(w: World, ws: Handle, slug: Value)
    requires FindIndex(w.users, ws).Some?
    ensures var i := FindIndex(w.users, ws).value;
      var r := OnLeaveIntended(w, ws, LeaveFrame(slug)).users;
      && SameIdentities(w.users, r)
      && slug !in r[i].rooms
      && (forall x :: x != slug ==> multiset(r[i].rooms)[x] == multiset(w.users[i].rooms)[x])
      && (forall j :: 0 <= j < |w.users| && j != i ==> r[j] == w.users[j])
  {
  }

  /** After the intended leave, a chat to that room no longer reaches the leaver. */
  lemma LeaveIntendedThenNoDelivery(w: World, ws: Handle, slug: Value, message: Value, f: OutFrame)
    requires UniqueHandles(w.users)
    requires FindIndex(w.users, ws).Some?
    ensures SendsTo(Deliveries(OnLeaveIntended(w, ws, LeaveFrame(slug)).users, slug, f), ws) == 0
  {
    var r := OnLeaveIntended(w, ws, LeaveFrame(slug)).users;
    var i := FindIndex(w.users, ws).value;
    assert UniqueHandles(r);
    forall j | 0 <= j < |r| && r[j].ws == ws ensures slug !in r[j].rooms {
      assert j == i;
    }
    ExactlyOncePerMember(r, slug, f, ws);
  }

  /**
   * As written, a store failure suppresses the relay: a member of the room
   * receives nothing when appending the chat record throws.
   */
  lemma StoreFailureSuppressesRelay()
    ensures
      var w := World([User(1, [Str("demo")], "u1"), User(2, [Str("demo")], "u2")], [], [], [], []);
      var frame := Frame(ChatKind, Str("demo"), Undefined, Str("hi"));
      OnMessage(w, 1, "u1", frame, Faults(false, false, true)).outbox == []
  {
  }

  /** The intended `chat`: persistence and relay are independent, the relay never waits on the store. */
  function ChatIntended(w: World, userId: string, slug: Value, message: Value, faults: Faults): World
  {
    var p := PersistChat(w.rooms, w.chats, slug, message, userId, faults);
    w.(rooms := p.rooms, chats := p.chats,
       outbox := w.outbox + Deliveries(w.users, slug, ChatOut(message, slug)))
  }

  /** Intended chat: the relay is the same whatever the store does, and persistence is as written. */
  lemma ChatIntendedRelayIgnoresFaults(w: World, userId: string, slug: Value, message: Value,
                                       faults: Faults, other: Faults)
    ensures ChatIntended(w, userId, slug, message, faults).outbox == ChatIntended(w, userId, slug, message, other).outbox
    ensures ChatIntended(w, userId, slug, message, faults).outbox == w.outbox + Deliveries(w.users, slug, ChatOut(message, slug))
    ensures ChatIntended(w, userId, slug, message, faults).(outbox := w.outbox) == Chat(w, userId, slug, message, faults).(outbox := w.outbox)
  {
  }

  // ---------------------------------------------------------------------------
  // Scenarios of the protocol, each a sequence of handler steps.
  // ---------------------------------------------------------------------------

  /** Two members of "demo"; U1's chat reaches both, and one record is stored under a new room. */
  lemma ScenarioChatInRoom()
    ensures
      var ok := Faults(false, false, false);
      var w0 := World([User(1, [], "u1"), User(2, [], "u2")], [], [], [], []);
      var w1 := OnMessage(w0, 1, "u1", Frame(JoinRoomKind, Str("demo"), Undefined, Undefined), ok);
      var w2 := OnMessage(w1, 2, "u2", Frame(JoinRoomKind, Str("demo"), Undefined, Undefined), ok);
      var w3 := OnMessage(w2, 1, "u1", Frame(ChatKind, Str("demo"), Undefined, Str("hi")), ok);
      && w3.outbox == [Delivery(1, ChatOut(Str("hi"), Str("demo"))), Delivery(2, ChatOut(Str("hi"), Str("demo")))]
      && w3.rooms == [Room(1, Str("demo"), "u1")]
      && w3.chats == [ChatRecord(1, Str("hi"), "u1")]
  {
    var ok := Faults(false, false, false);
    var w0 := World([User(1, [], "u1"), User(2, [], "u2")], [], [], [], []);
    var w1 := OnMessage(w0, 1, "u1", Frame(JoinRoomKind, Str("demo"), Undefined, Undefined), ok);
    assert FindIndex(w0.users, 1) == Some(0);
    assert [] + [Str("demo")] == [Str("demo")];
    assert w1.users == Join(w0.users, 1, Str("demo"));
    assert w1.users == [User(1, [Str("demo")], "u1"), User(2, [], "u2")];
    var w2 := OnMessage(w1, 2, "u2", Frame(JoinRoomKind, Str("demo"), Undefined, Undefined), ok);
    assert FindIndex(w1.users[1..], 2) == Some(0);
    assert FindIndex(w1.users, 2) == Some(1);
    assert w2.users == [User(1, [Str("demo")], "u1"), User(2, [Str("demo")], "u2")];
    var users := w2.users;
    assert users[..1] == [users[0]];
    assert Deliveries(users, Str("demo"), ChatOut(Str("hi"), Str("demo")))
        == [Delivery(1, ChatOut(Str("hi"), Str("demo"))), Delivery(2, ChatOut(Str("hi"), Str("demo")))];
  }

  /** A connection whose token (missing, empty or present) the verifier rejects is closed and never registered. */
  lemma ScenarioInvalidToken(w: World, ws: Handle, url: string, token: Option<string>, verify: string -> VerifyOutcome)
    requires url != "" && verify(TokenOf(token)) == Throws
    ensures Connect(w, ws, Some(url), token, verify).users == w.users
    ensures Connect(w, ws, Some(url), token, verify).closed == w.closed + [ws]
  {
  }
}
