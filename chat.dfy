/** The chat app: the WebSocket consumer (chat/consumers.py) and the history view
    (chat/views.py). Both name the conversation between two users after the pair of
    usernames, smaller first in Python's string order. */
module Chat {
  import opened Wrappers
  import opened Seqs
  import opened Strings
  import opened UserModels
  import opened ChatModels
  import opened Database

  /** `room_name` in `connect`, for path arguments `my_username` and `username`. */
  function RoomName(me: string, other: string): string {
    if Less(other, me) then other + "-" + me else me + "-" + other
  }

  /** `room_group_name`. */
  function GroupName(room: string): string {
    "chat_" + room
  }

  /** The room is the smaller name, a dash and the larger one; it does not depend on who
      connects. */
  lemma RoomNameOrdered(a: string, b: string)
    ensures Less(a, b) ==> RoomName(a, b) == a + "-" + b && RoomName(b, a) == a + "-" + b
    ensures RoomName(a, a) == a + "-" + a
    ensures RoomName(a, b) == RoomName(b, a)
  {
    LessAsymmetric(a, b);
    LessIrreflexive(a);
    LessTotal(a, b);
  }

  /** Two different pairs can share a room when a username contains a dash. */
  lemma RoomNamesCanCollide()
    ensures RoomName("a-b", "c") == RoomName("a", "b-c") == "a-b-c"
  {
    assert Less("a-b", "c");
    assert Less("a", "b-c");
    assert !Less("a-b", "a") && !Less("b-c", "a") by {
      assert !Less("-b", "") && !Less("", "");
    }
    assert !Less("c", "a-b");
  }

  /** `canal` in the history view, for the requester `me` and the named user `other`. */
  function Canal(me: string, other: string): string {
    if Less(other, me) then "chat_" + other + "-" + me else "chat_" + me + "-" + other
  }

  /** The history view's channel is the consumer's group for the same pair, whichever way
      round either one takes the names. */
  lemma CanalIsGroupName(me: string, other: string)
    ensures Canal(me, other) == GroupName(RoomName(me, other)) == GroupName(RoomName(other, me))
    ensures Canal(me, other) == Canal(other, me)
  {
    RoomNameOrdered(me, other);
    assert Canal(other, me) == GroupName(RoomName(other, me));
  }

  /** `chat(username)` for requester `me`: the named user must exist; the answer is every
      saved message of their channel, in table order. */
  function History(t: Tables, me: User, name: string): (r: Result<seq<ChatRow>, DbError>)
    ensures r.Err? <==> !UsernameTaken(t, name)
    ensures r.Err? ==> r.error == DoesNotExist
    ensures r.Ok? ==> forall m :: m in r.value <==> m in t.chats && m.canal == Canal(me.username, name)
  {
    match UserNamed(t, name)
    case Err(e) => Err(e)
    case Ok(u) => Ok(Filter(t.chats, (m: ChatRow) => m.canal == Canal(me.username, u.username)))
  }

  /** The event `receive` sends to the group. */
  datatype Event = Event(kind: string, message: string, username: string)

  /** The frame `chat_message` sends down the socket. */
  datatype Frame = Frame(kind: string, message: string, username: string)

  /** `chat_message`: the event's message and username, forwarded as an echo. */
  function Echo(event: Event): (f: Frame)
    ensures f.kind == "chat_message_echo" && f.message == event.message && f.username == event.username
  {
    Frame("chat_message_echo", event.message, event.username)
  }

  /** One connection of `PersonalChatConsumer`. */
  class PersonalChatConsumer {
    var myUser: string
    var otherUsername: string
    var roomName: string
    var roomGroupName: string

    /** The consumer is connected: its names agree with its path arguments. */
    predicate Connected()
      reads this
    {
      roomName == RoomName(myUser, otherUsername) && roomGroupName == GroupName(roomName)
    }

    constructor ()
      ensures myUser == "" && otherUsername == "" && roomName == "" && roomGroupName == ""
    {
      myUser, otherUsername, roomName, roomGroupName := "", "", "", "";
    }

    /** `connect` with path arguments `my_username` and `username`. */
    method Connect(myUsername: string, username: string)
      modifies this
      ensures myUser == myUsername && otherUsername == username
      ensures Connected()
    {
      myUser := myUsername;
      otherUsername := username;
      if Less(otherUsername, myUser) {
        roomName := otherUsername + "-" + myUser;
      } else {
        roomName := myUser + "-" + otherUsername;
      }
      roomGroupName := "chat_" + roomName;
    }

    /** `receive` with the decoded JSON `data`: a missing key raises; otherwise the message
        is saved under the group name, and then the event and the group it goes to are the
        answer. */
    method Receive(db: Db, data: map<string, string>) returns (r: Result<(string, Event), DbError>)
      requires Connected()
      modifies db
      ensures "message" !in data ==> r == Err(KeyError("message")) && db.tables == old(db.tables)
      ensures "message" in data && "username" !in data ==> r == Err(KeyError("username")) && db.tables == old(db.tables)
      ensures "message" in data && "username" in data ==>
        && db.tables == old(db.tables).(chats := old(db.tables).chats + [ChatRow(data["username"], data["message"], roomGroupName)])
        && r == Ok((roomGroupName, Event("chat_message", data["message"], data["username"])))
      ensures "message" in data && "username" in data ==>
        r.Ok? && Echo(r.value.1) == Frame("chat_message_echo", data["message"], data["username"])
    {
      if "message" !in data {
        return Err(KeyError("message"));
      }
      var message := data["message"];
      if "username" !in data {
        return Err(KeyError("username"));
      }
      var username := data["username"];
      db.tables := db.tables.(chats := db.tables.chats + [ChatRow(username, message, roomGroupName)]);
      return Ok((roomGroupName, Event("chat_message", message, username)));
    }
  }

  /** Two events of the same kind with the same echo are the same event: the echo loses
      nothing of the message or the sender. */
  lemma EchoInjective(e: Event, e': Event)
    requires e.kind == e'.kind && Echo(e) == Echo(e')
    ensures e == e'
  {
  }

  /** A message saved by a consumer connected for one user and another shows in the
      history either of them asks for about the other. */
  lemma SavedMessageShowsInHistory(t: Tables, a: User, b: User, row: ChatRow)
    requires a in t.users && b in t.users
    requires row.canal == GroupName(RoomName(a.username, b.username))
    ensures var t' := t.(chats := t.chats + [row]);
      History(t', a, b.username).Ok? && row in History(t', a, b.username).value &&
      History(t', b, a.username).Ok? && row in History(t', b, a.username).value
  {
    var t' := t.(chats := t.chats + [row]);
    CanalIsGroupName(a.username, b.username);
    assert row in t'.chats;
  }
}
