/**
 * chat.service.ChatService: the command handlers. Each one sequences
 * directory and room updates with the lines it writes back to the calling
 * connection `c` or broadcasts to the members of a room.
 */
module Service {
  import opened JavaText
  import opened Transport
  import opened UserModel
  import opened ChannelModel
  import opened Data

  // The replies, each followed by the line separator.
  const MissingArguments: string := "ERROR: Missing arguments." + LineSeparator
  const InvalidArguments: string := "ERROR: Invalid arguments." + LineSeparator
  const WrongPassword: string := "ERROR: Wrong password." + LineSeparator
  const PleaseInputChannelName: string := "ERROR: Please input channel name." + LineSeparator
  const AtMaxCapacity: string := "The channel you've tried to connect is at max capacity." + LineSeparator
  const PleaseLogin: string := "ERROR: Please login to system first." + LineSeparator
  const NotJoined: string := "You've not joined any channel." + LineSeparator

  /** The history length of a room that handleJoin creates. */
  const RoomHistory: int := 10

  function Welcome(name: string): string {
    "Welcome " + name + "." + LineSeparator
  }

  function LoggedInAs(name: string): string {
    "You've logged in as " + name + "." + LineSeparator
  }

  function NewChannel(name: string): string {
    "New channel " + name + " has been created." + LineSeparator
  }

  function JoinedChannel(name: string): string {
    "You've joined channel " + name + "." + LineSeparator
  }

  function LeftChannel(user: User): string {
    "User " + user.ToString() + " has left the channel." + LineSeparator
  }

  /** Each entry of `ms` as a line of its own, in order. */
  function Lines(ms: seq<string>): (ls: seq<string>)
    ensures |ls| == |ms|
    ensures forall k :: 0 <= k < |ms| ==> ls[k] == ms[k] + LineSeparator
  {
    if ms == [] then [] else Lines(ms[..|ms| - 1]) + [ms[|ms| - 1] + LineSeparator]
  }

  /** `order` lists every element of `s` exactly once. */
  ghost predicate Enumerates<T>(order: seq<T>, s: set<T>) {
    && |order| == |s|
    && (forall k :: 0 <= k < |order| ==> order[k] in s)
    && (forall x :: x in s ==> x in order)
  }

  /**
   * The invariant the handlers keep: the directory invariant, names
   * distinct ignoring case, and every bound connection bound to a stored user.
   */
  ghost predicate Wired(storage: LocalStorage, attrs: UserAttribute)
    reads storage, storage.chatChannels, attrs
  {
    && storage.Valid()
    && storage.NamesDistinct()
    && (forall c :: c in attrs.bound ==> attrs.bound[c] in storage.users)
  }

  /** Exactly `ls` was written to `c`, nothing to any other connection, and nothing was closed. */
  twostate predicate Replied(out: Outbox, c: Conn, new ls: seq<string>)
    reads out
  {
    && out.Sent(c) == old(out.Sent(c)) + ls
    && (forall d :: d != c ==> out.Sent(d) == old(out.Sent(d)))
    && out.closed == old(out.closed)
  }

  /** Two replies in a row are one reply. */
  lemma AppendTwice(s: seq<string>, a: seq<string>, b: seq<string>)
    ensures s + a + b == s + (a + b)
  {
  }

  /** The directory, the rooms, the users and the bindings are as they were. */
  twostate predicate Quiet(storage: LocalStorage, attrs: UserAttribute)
    reads storage, storage.chatChannels, storage.users, attrs
  {
    && unchanged(storage, attrs)
    && unchanged(storage.chatChannels)
    && unchanged(storage.users)
  }

  /** A room handleJoin has just created: empty, unregistered, and with a name no registered room has. */
  ghost predicate Unregistered(storage: LocalStorage, room: ChatChannel)
    reads storage, room
  {
    && room !in storage.chatChannels
    && room.users == {}
    && room.Valid()
    && (forall r :: r in storage.chatChannels ==> r.name != room.name)
  }

  function RoomSet(room: ChatChannel?): set<ChatChannel> {
    if room == null then {} else {room}
  }

  /** The reply to a join of `room`: the joined line and the history when admitted, else the capacity error. */
  function JoinReply(room: ChatChannel, admitted: bool): seq<string>
    reads room
  {
    if admitted then [JoinedChannel(room.name)] + Lines(room.messages) else [AtMaxCapacity]
  }

  /**
   * What joinChannel does with `room`, whose members were `members0`:
   * `user` leaves every registered room; then `user` is admitted exactly
   * when the room has space without them, in which case the room is
   * registered, `user` is mapped to it, and the reply is the joined line
   * followed by the history; otherwise the reply is the capacity error, and
   * registry and mapping stay as they were.
   */
  twostate predicate Joined(storage: LocalStorage, user: User, new room: ChatChannel, members0: set<User>, out: Outbox, c: Conn)
    reads storage, storage.chatChannels, room, out
  {
    var admitted := |members0 - {user}| < Capacity;
    && storage.chatChannels == old(storage.chatChannels) + (if admitted then {room} else {})
    && (forall r :: r in old(storage.chatChannels) && r != room ==> r.users == old(r.users) - {user})
    && storage.userToChat == (if admitted then old(storage.userToChat)[user := room] else old(storage.userToChat))
    && room.users == (if admitted then members0 + {user} else members0 - {user})
    && Replied(out, c, JoinReply(room, admitted))
  }

  /** loginRequired: true, after the login error, exactly when no user is bound. */
  method LoginRequired(c: Conn, out: Outbox, user: User?) returns (required: bool)
    modifies out
    ensures required <==> user == null
    ensures user == null ==> Replied(out, c, [PleaseLogin])
    ensures user != null ==> unchanged(out)
  {
    if user == null {
      out.WriteAndFlush(c, PleaseLogin);
      return true;
    }
    return false;
  }

  /** Writes `ms` to `c`, one line per entry, in order. */
  method WriteLines(c: Conn, ms: seq<string>, out: Outbox)
    modifies out
    ensures Replied(out, c, Lines(ms))
  {
    var i := 0;
    while i < |ms|
      invariant 0 <= i <= |ms|
      invariant Replied(out, c, Lines(ms[..i]))
    {
      assert ms[..i + 1][..i] == ms[..i];
      out.WriteAndFlush(c, ms[i] + LineSeparator);
      i := i + 1;
    }
    assert ms[..i] == ms;
  }

  /** The reply to a successful join: the joined line, then the history. */
  method WriteJoined(c: Conn, name: string, ms: seq<string>, out: Outbox)
    modifies out
    ensures Replied(out, c, [JoinedChannel(name)] + Lines(ms))
  {
    out.WriteAndFlush(c, JoinedChannel(name));
    WriteLines(c, ms, out);
  }

  /**
   * The first stage of joinChannel: a mapped user is taken out of every
   * registered room. An unmapped user is in none already.
   */
  method LeaveAll(storage: LocalStorage, user: User)
    requires storage.Valid()
    modifies storage.chatChannels`users
    ensures storage.Valid()
    ensures forall r :: r in storage.chatChannels ==> r.users == old(r.users) - {user}
  {
    if storage.AnyChannelContainsUser(user) {
      storage.RemoveUserFromChannels(user);
    }
  }

  /**
   * The directory invariant just after addUser put `user` into `room`:
   * everything holds except that `room` may not be registered yet and
   * `user` is not yet mapped to it.
   */
  ghost predicate ReadyToRegister(storage: LocalStorage, user: User, room: ChatChannel)
    reads storage, storage.chatChannels, room
  {
    && (forall r :: r in storage.chatChannels ==> r.Valid())
    && room.Valid()
    && (forall r, s :: r in storage.chatChannels && s in storage.chatChannels && r.name == s.name ==> r == s)
    && (forall r :: r in storage.chatChannels && r.name == room.name ==> r == room)
    && (forall u :: u in storage.userToChat ==> u in storage.users && storage.userToChat[u] in storage.chatChannels)
    && user in storage.users
    && (forall r, u :: r in storage.chatChannels && r != room && u in r.users ==> u != user && u in storage.userToChat && storage.userToChat[u] == r)
    && (forall u :: u in room.users && u != user ==> u in storage.userToChat && storage.userToChat[u] == room)
  }

  /** `user` is a member of no registered room. */
  ghost predicate InNoRoom(storage: LocalStorage, user: User)
    reads storage, storage.chatChannels
  {
    forall r :: r in storage.chatChannels ==> user !in r.users
  }

  /**
   * addUser on `room` for a user in no registered room: on success the
   * directory is ready for the registration of `room`.
   */
  method Enter(storage: LocalStorage, user: User, room: ChatChannel) returns (added: bool)
    requires storage.Valid() && user in storage.users && InNoRoom(storage, user)
    requires room in storage.chatChannels || Unregistered(storage, room)
    modifies room`users
    ensures added <==> |old(room.users)| < Capacity
    ensures room.users == if added then old(room.users) + {user} else old(room.users)
    ensures added ==> ReadyToRegister(storage, user, room)
    ensures !added ==> storage.Valid()
  {
    added := room.AddUser(user);
  }

  /** The registration half of a successful join: `room` is registered if it was not, and `user` is mapped to it. */
  method Register(storage: LocalStorage, user: User, room: ChatChannel)
    requires ReadyToRegister(storage, user, room)
    modifies storage`chatChannels, storage`userToChat
    ensures storage.chatChannels == old(storage.chatChannels) + {room}
    ensures storage.userToChat == old(storage.userToChat)[user := room]
    ensures storage.Valid()
  {
    if room !in storage.GetChatChannels() {
      storage.AddChatChannel(room);
    }
    storage.AddChatChannelToUser(user, room);
    forall r, u | r in storage.chatChannels && u in r.users
      ensures u in storage.userToChat && storage.userToChat[u] == r
    {
      if r != room {
        assert r in old(storage.chatChannels) && u != user;
      }
    }
  }

  /**
   * The second stage of joinChannel, for a user in no registered room:
   * addUser on `room`; on success the reply, the registration of the room
   * and the mapping of `user` to it; on failure the capacity error.
   */
  method Admit(c: Conn, storage: LocalStorage, user: User, room: ChatChannel, out: Outbox) returns (added: bool)
    requires storage.Valid() && user in storage.users
    requires InNoRoom(storage, user)
    requires room in storage.chatChannels || Unregistered(storage, room)
    modifies storage`chatChannels, storage`userToChat, room`users, out
    ensures storage.Valid()
    ensures added <==> |old(room.users)| < Capacity
    ensures room.users == if added then old(room.users) + {user} else old(room.users)
    ensures storage.chatChannels == old(storage.chatChannels) + (if added then {room} else {})
    ensures storage.userToChat == if added then old(storage.userToChat)[user := room] else old(storage.userToChat)
    ensures forall r :: r in old(storage.chatChannels) && r != room ==> r.users == old(r.users)
    ensures Replied(out, c, JoinReply(room, added))
  {
    added := Enter(storage, user, room);
    if added {
      WriteJoined(c, room.GetName(), room.GetMessages(), out);
      Register(storage, user, room);
    } else {
      out.WriteAndFlush(c, AtMaxCapacity);
    }
  }

  /**
   * joinChannel on a room: `user` is taken out of every room when mapped,
   * then added to `room`; on success the joined line and the history are
   * written, the room is registered if it was not, and `user` is mapped to
   * it; on failure the capacity error is written.
   */
  method JoinRoom(c: Conn, storage: LocalStorage, user: User, room: ChatChannel, out: Outbox)
    requires storage.Valid() && user in storage.users
    requires room in storage.chatChannels || Unregistered(storage, room)
    modifies storage`chatChannels, storage`userToChat, storage.chatChannels`users, room`users, out
    ensures storage.Valid()
    ensures Joined(storage, user, room, old(room.users), out, c)
  {
    LeaveAll(storage, user);
    assert room.users == old(room.users) - {user};
    var added := Admit(c, storage, user, room, out);
    assert added == (|old(room.users) - {user}| < Capacity);
  }

  /** joinChannel: nothing for a null room, otherwise the join of that room. */
  method JoinChannel(c: Conn, storage: LocalStorage, user: User, room: ChatChannel?, out: Outbox)
    requires storage.Valid() && user in storage.users
    requires room != null ==> room in storage.chatChannels || Unregistered(storage, room)
    modifies storage`chatChannels, storage`userToChat, storage.chatChannels`users, RoomSet(room)`users, out
    ensures storage.Valid()
    ensures room == null ==> unchanged(storage) && unchanged(storage.chatChannels) && Replied(out, c, [])
    ensures room != null ==> Joined(storage, user, room, old(room.users), out, c)
  {
    if room != null {
      JoinRoom(c, storage, user, room, out);
    }
  }

  /**
   * The lookup of handleJoin: the registered room named `name`, or null
   * when there is none.
   */
  method FindChannel(rooms: set<ChatChannel>, name: string) returns (room: ChatChannel?)
    ensures room == null <==> forall r :: r in rooms ==> r.name != name
    ensures room != null ==> room in rooms && room.name == name
  {
    var todo := rooms;
    room := null;
    while todo != {} && room == null
      invariant todo <= rooms
      invariant room == null ==> forall r :: r in rooms - todo ==> r.name != name
      invariant room != null ==> room in rooms && room.name == name
      decreases |todo|
    {
      var r :| r in todo;
      if r.GetName() == name {
        room := r;
      }
      todo := todo - {r};
    }
  }

  /**
   * The join of a fresh room of history 10 named `name`, which always
   * succeeds: `user` leaves every registered room and becomes the only
   * member of the new room, which is registered and to which `user` is
   * mapped.
   */
  method OpenRoom(c: Conn, storage: LocalStorage, user: User, name: string, out: Outbox) returns (room: ChatChannel)
    requires storage.Valid() && user in storage.users
    requires forall r :: r in storage.chatChannels ==> r.name != name
    modifies storage`chatChannels, storage`userToChat, storage.chatChannels`users, out
    ensures fresh(room) && room.name == name && room.maxMessageCount == RoomHistory
    ensures storage.Valid()
    ensures room in storage.chatChannels
    ensures forall r :: r in storage.chatChannels && r != room ==> r in old(storage.chatChannels)
    ensures forall r :: r in old(storage.chatChannels) ==> r in storage.chatChannels && r.users == old(r.users) - {user}
    ensures storage.userToChat == old(storage.userToChat)[user := room]
    ensures room.users == {user} && room.messages == []
    ensures Replied(out, c, [JoinedChannel(name)])
  {
    room := new ChatChannel(name, RoomHistory);
    JoinRoom(c, storage, user, room, out);
    assert JoinReply(room, true) == [JoinedChannel(name)];
  }

  /** The branch of handleJoin for a name no room has: the creation line, then the join of a fresh room. */
  method CreateAndJoin(c: Conn, storage: LocalStorage, user: User, name: string, out: Outbox) returns (room: ChatChannel)
    requires storage.Valid() && user in storage.users
    requires forall r :: r in storage.chatChannels ==> r.name != name
    modifies storage`chatChannels, storage`userToChat, storage.chatChannels`users, out
    ensures storage.users == old(storage.users)
    ensures forall v :: v in old(storage.users) ==> v.channels == old(v.channels)
    ensures forall r :: r in old(storage.chatChannels) ==> r.messages == old(r.messages)
    ensures fresh(room) && room.name == name && room.maxMessageCount == RoomHistory
    ensures storage.Valid()
    ensures room in storage.chatChannels
    ensures forall r :: r in storage.chatChannels && r != room ==> r in old(storage.chatChannels)
    ensures forall r :: r in old(storage.chatChannels) ==> r in storage.chatChannels && r.users == old(r.users) - {user}
    ensures storage.userToChat == old(storage.userToChat)[user := room]
    ensures room.users == {user} && room.messages == []
    ensures Replied(out, c, [NewChannel(name), JoinedChannel(name)])
  {
    out.WriteAndFlush(c, NewChannel(name));
    room := OpenRoom(c, storage, user, name, out);
  }

  /**
   * What handleJoin does with `argument`: without one, the channel-name
   * error and no change; with a name, `room` is the registered room of
   * that name when there is one, joined as joinChannel does, and otherwise
   * a new room with that name and a history of 10, announced, registered
   * and joined.
   */
  twostate predicate JoinHandled(storage: LocalStorage, user: User?, argument: Option<string>, new room: ChatChannel?, c: Conn, out: Outbox)
    reads storage, storage.chatChannels, RoomSet(room), out
  {
    && (argument.None? ==> room == null && unchanged(storage) && unchanged(storage.chatChannels)
                           && Replied(out, c, [PleaseInputChannelName]))
    && (argument.Some? ==> user != null && room != null && room.name == argument.value)
    && (argument.Some? && user != null && room != null ==>
          && (room in old(storage.chatChannels) <==> exists r :: r in old(storage.chatChannels) && r.name == argument.value)
          && (room in old(storage.chatChannels) ==> Joined(storage, user, room, old(room.users), out, c))
          && (room !in old(storage.chatChannels) ==>
                && fresh(room) && room.maxMessageCount == RoomHistory
                && room in storage.chatChannels
                && (forall r :: r in storage.chatChannels && r != room ==> r in old(storage.chatChannels))
                && (forall r :: r in old(storage.chatChannels) ==> r in storage.chatChannels && r.users == old(r.users) - {user})
                && storage.userToChat == old(storage.userToChat)[user := room]
                && room.users == {user} && room.messages == []
                && Replied(out, c, [NewChannel(argument.value), JoinedChannel(argument.value)])))
  }

  /**
   * handleJoin: the error for a missing name; otherwise the registered room
   * of that name, or, when there is none, a new room after the creation line,
   * and then the join of that room. The room is returned for the contract.
   */
  method HandleJoin(c: Conn, storage: LocalStorage, user: User?, argument: Option<string>, out: Outbox)
    returns (ghost room: ChatChannel?)
    requires storage.Valid()
    requires argument.Some? ==> user != null && user in storage.users
    modifies storage`chatChannels, storage`userToChat, storage.chatChannels`users, out
    ensures storage.Valid()
    ensures JoinHandled(storage, user, argument, room, c, out)
    ensures storage.users == old(storage.users)
    ensures forall v :: v in old(storage.users) ==> v.channels == old(v.channels)
    ensures forall r :: r in old(storage.chatChannels) ==> r.messages == old(r.messages)
  {
    if argument.None? {
      out.WriteAndFlush(c, PleaseInputChannelName);
      return null;
    }
    var existing := FindChannel(storage.GetChatChannels(), argument.value);
    if existing != null {
      JoinChannel(c, storage, user, existing, out);
      room := existing;
    } else {
      room := CreateAndJoin(c, storage, user, argument.value, out);
    }
  }

  /**
   * What handleLeave does for a logged-in user whose current room is
   * `room`: `user` is a member of no room and has no mapping entry any
   * more, and every connection of every remaining member of `room` receives
   * the departure line, once per member holding it.
   */
  twostate predicate Left(storage: LocalStorage, user: User, new room: ChatChannel, out: Outbox)
    reads storage, storage.chatChannels, room, room.users, out
  {
    && user in old(storage.userToChat) && room == old(storage.userToChat)[user]
    && storage.chatChannels == old(storage.chatChannels)
    && storage.userToChat == old(storage.userToChat) - {user}
    && (forall r :: r in old(storage.chatChannels) ==> r.users == old(r.users) - {user})
    && (forall d :: out.Sent(d) == old(out.Sent(d)) + Repeat(LeftChannel(user), Holders(room.users, d)))
    && out.closed == old(out.closed)
  }

  /**
   * The directory half of handleLeave: the current room is looked up
   * (re-admitting `user` if needed), then `user` leaves every room and
   * loses the mapping entry.
   */
  method Depart(storage: LocalStorage, user: User) returns (room: ChatChannel?)
    requires storage.Valid() && storage.HasCurrentRoom(user)
    modifies storage`userToChat, storage.chatChannels`users
    ensures storage.Valid()
    ensures user in old(storage.userToChat) && room == old(storage.userToChat)[user]
    ensures storage.userToChat == old(storage.userToChat) - {user}
    ensures forall r :: r in storage.chatChannels ==> r.users == old(r.users) - {user}
  {
    room := storage.GetCurrentChatChannel(user);
    assert room != null && room == storage.userToChat[user];
    assert forall r :: r in storage.chatChannels ==> r.users - {user} == old(r.users) - {user};
    Vacate(storage, user);
  }

  /** removeUserFromChannels and removeChannelFromUser: `user` is in no room and unmapped. */
  method Vacate(storage: LocalStorage, user: User)
    requires storage.Valid()
    modifies storage`userToChat, storage.chatChannels`users
    ensures storage.Valid()
    ensures storage.userToChat == old(storage.userToChat) - {user}
    ensures forall r :: r in storage.chatChannels ==> r.users == old(r.users) - {user}
  {
    storage.RemoveUserFromChannels(user);
    storage.RemoveChannelFromUser(user);
  }

  /** The body of handleLeave after the login test: the departure, then the broadcast to the remaining members. */
  method Leave(storage: LocalStorage, user: User, out: Outbox) returns (ghost room: ChatChannel)
    requires storage.Valid() && storage.HasCurrentRoom(user)
    modifies storage`userToChat, storage.chatChannels`users, out
    ensures storage.Valid()
    ensures Left(storage, user, room, out)
  {
    var cc := Depart(storage, user);
    FanOut(cc.GetUsers(), LeftChannel(user), out);
    room := cc;
  }

  /** What handleLeave does: the login error and no change without a user, otherwise the user has left `room`. */
  twostate predicate LeaveHandled(storage: LocalStorage, user: User?, new room: ChatChannel?, c: Conn, out: Outbox)
    reads storage, storage.chatChannels, RoomSet(room), if room == null then {} else room.users, out
  {
    && (user == null ==> room == null && unchanged(storage) && unchanged(storage.chatChannels) && Replied(out, c, [PleaseLogin]))
    && (user != null ==> room != null && Left(storage, user, room, out))
  }

  /**
   * handleLeave: the login error when no user is bound; otherwise the user
   * leaves the current room, which is returned for the contract.
   */
  method HandleLeave(c: Conn, storage: LocalStorage, user: User?, out: Outbox) returns (ghost room: ChatChannel?)
    requires storage.Valid()
    requires user != null ==> storage.HasCurrentRoom(user)
    modifies storage`userToChat, storage.chatChannels`users, out
    ensures storage.Valid()
    ensures LeaveHandled(storage, user, room, c, out)
  {
    var required := LoginRequired(c, out, user);
    if required {
      return null;
    }
    room := Leave(storage, user, out);
  }

  /**
   * What logout does on connection `c` of `user`, whose current room is
   * `room`: `c` is no longer a connection of `user`; when it was their last
   * one they leave `room` and its remaining members are told, and otherwise
   * they stay a member (re-admitted if they were not); no other user's
   * connections change; `c` is closed.
   */
  twostate predicate LoggedOut(storage: LocalStorage, user: User, new room: ChatChannel, c: Conn, out: Outbox)
    reads storage, storage.chatChannels, storage.users, user, room, room.users, out
  {
    var gone := old(user.channels) - {c} == {};
    && user in old(storage.userToChat) && room == old(storage.userToChat)[user]
    && storage.chatChannels == old(storage.chatChannels) && storage.userToChat == old(storage.userToChat)
    && user.channels == old(user.channels) - {c}
    && storage.users == old(storage.users)
    && (forall v :: v in storage.users && v != user ==> v.channels == old(v.channels))
    && room.users == (if gone then old(room.users) - {user} else old(room.users) + {user})
    && (forall r :: r in old(storage.chatChannels) && r != room ==> r.users == old(r.users))
    && (forall d :: out.Sent(d) == old(out.Sent(d)) + (if user in room.users then [] else Repeat(LeftChannel(user), Holders(room.users, d))))
    && out.closed == old(out.closed) + {c}
  }

  /**
   * The directory half of logout: the current room is looked up
   * (re-admitting `user` if needed), then logoutUser takes `c` away from
   * `user` and, when it was their last connection, `user` out of the room.
   */
  method Withdraw(c: Conn, storage: LocalStorage, user: User) returns (room: ChatChannel?)
    requires storage.Valid() && storage.HasCurrentRoom(user)
    modifies user`channels, storage.MappedRoom(user)`users
    ensures storage.Valid()
    ensures user in storage.userToChat && room == storage.userToChat[user]
    ensures user.channels == old(user.channels) - {c}
    ensures room.users == if old(user.channels) - {c} == {} then old(room.users) - {user} else old(room.users) + {user}
  {
    room := storage.GetCurrentChatChannel(user);
    storage.LogoutUser(c, user);
  }

  /** logout, for a user with a current room (the lookups fail otherwise). */
  method Logout(c: Conn, storage: LocalStorage, user: User, out: Outbox) returns (ghost room: ChatChannel)
    requires storage.Valid() && storage.HasCurrentRoom(user)
    modifies user`channels, storage.MappedRoom(user)`users, out
    ensures storage.Valid()
    ensures LoggedOut(storage, user, room, c, out)
  {
    var cc := Withdraw(c, storage, user);
    SignOff(c, user, cc.GetUsers(), out);
    room := cc;
  }

  /** The output half of logout: the departure line to `members` unless `user` is still one of them, then `c` is closed. */
  method SignOff(c: Conn, user: User, members: set<User>, out: Outbox)
    modifies out
    ensures forall d :: out.Sent(d) == old(out.Sent(d)) + (if user in members then [] else Repeat(LeftChannel(user), Holders(members, d)))
    ensures out.closed == old(out.closed) + {c}
  {
    if user !in members {
      FanOut(members, LeftChannel(user), out);
    }
    out.Close(c);
  }

  /** The names of `rs`, in order. */
  function Names(rs: seq<ChatChannel>): (ns: seq<string>)
    ensures |ns| == |rs|
    ensures forall k :: 0 <= k < |rs| ==> ns[k] == rs[k].name
  {
    seq(|rs|, k requires 0 <= k < |rs| => rs[k].name)
  }

  /** The usernames of `us`, in order. */
  function Usernames(us: seq<User>): (ns: seq<string>)
    ensures |ns| == |us|
    ensures forall k :: 0 <= k < |us| ==> ns[k] == us[k].username
  {
    seq(|us|, k requires 0 <= k < |us| => us[k].username)
  }

  /** The iteration of a set: every element exactly once, in an order the set chooses. */
  method Enumerate<T>(s: set<T>) returns (order: seq<T>)
    ensures Enumerates(order, s)
  {
    var todo := s;
    order := [];
    while todo != {}
      invariant todo <= s
      invariant |order| + |todo| == |s|
      invariant forall k :: 0 <= k < |order| ==> order[k] in s && order[k] !in todo
      invariant forall x :: x in s ==> x in todo || x in order
      decreases |todo|
    {
      var x :| x in todo;
      order := order + [x];
      todo := todo - {x};
    }
  }

  /** listChannels: one line per registered room, its name, in the order the registry yields them. */
  method ListChannels(c: Conn, storage: LocalStorage, out: Outbox) returns (order: seq<ChatChannel>)
    modifies out
    ensures Enumerates(order, storage.chatChannels)
    ensures Replied(out, c, Lines(Names(order)))
  {
    order := Enumerate(storage.GetChatChannels());
    WriteLines(c, Names(order), out);
  }

  /**
   * The line listChannels writes for a room named `name`, as the source
   * writes it: the name is concatenated into the format string before
   * String.format sees it, with the line separator as the one argument.
   * A name without `%` gives the intended line.
   */
  function ListLineAsWritten(name: string): (r: Option<string>)
    ensures '%' !in name ==> r == Some(name + LineSeparator)
  {
    if '%' !in name then FormatPlain(name, LineSeparator, LineSeparator); Format(name + "%s", [LineSeparator], LineSeparator)
    else Format(name + "%s", [LineSeparator], LineSeparator)
  }

  /**
   * Room names come from /join arguments, so a `%` reaches the format:
   * "100%" is listed as "100%s" with no line break, and "%d" makes
   * String.format throw.
   */
  lemma ListLineAsWrittenBreaks()
    ensures ListLineAsWritten("100%") == Some("100%s")
    ensures ListLineAsWritten("%d") == None
  {
    var ls := LineSeparator;
    assert "s"[1..] == [] && "%%s"[2..] == "s" && "0%%s"[1..] == "%%s" && "00%%s"[1..] == "0%%s" && "100%%s"[1..] == "00%%s";
    assert "s" + [] == "s" && "%" + "s" == "%s" && ['0'] + "%s" == "0%s" && ['0'] + "0%s" == "00%s" && ['1'] + "00%s" == "100%s";
    assert Format("s", [ls], ls) == Prepend("s", Format([], [ls], ls)) == Some("s");
    assert Format("%%s", [ls], ls) == Prepend("%", Format("s", [ls], ls)) == Some("%s");
    assert Format("0%%s", [ls], ls) == Prepend(['0'], Format("%%s", [ls], ls)) == Some("0%s");
    assert Format("00%%s", [ls], ls) == Prepend(['0'], Format("0%%s", [ls], ls)) == Some("00%s");
    assert Format("100%%s", [ls], ls) == Prepend(['1'], Format("00%%s", [ls], ls)) == Some("100%s");
    assert "100%" + "%s" == "100%%s" && "100%"[3] == '%';
    assert "%d" + "%s" == "%d%s" && "%d"[0] == '%';
    assert "%d%s"[0] == '%' && "%d%s"[1] == 'd' && |"%d%s"| == 4;
    assert Format("%d%s", [ls], ls) == None;
  }

  /** What listUsers does: the login error without a user, otherwise one line per member of their room, as `order` lists them. */
  twostate predicate Listed(storage: LocalStorage, user: User?, new order: seq<User>, c: Conn, out: Outbox)
    reads storage, storage.MappedRoom(user), out
  {
    && (user == null ==> order == [] && Replied(out, c, [PleaseLogin]))
    && (user != null ==> Enumerates(order, storage.GetUserList(user)) && Replied(out, c, Lines(Usernames(order))))
  }

  /**
   * listUsers: the login error when no user is bound; otherwise one line
   * per member of the room the user is mapped to (none when unmapped).
   */
  method ListUsers(c: Conn, storage: LocalStorage, user: User?, out: Outbox) returns (order: seq<User>)
    modifies out
    ensures Listed(storage, user, order, c, out)
  {
    var required := LoginRequired(c, out, user);
    if required {
      return [];
    }
    order := Enumerate(storage.GetUserList(user));
    WriteLines(c, Usernames(order), out);
  }

  /**
   * What sendMessage does for a logged-in `user`: with a current room
   * `room`, the user is a member of it, every connection of every member
   * receives the chat line once per member holding it, and the history
   * gains the entry; without one, the not-joined reply and no change.
   */
  twostate predicate Messaged(storage: LocalStorage, user: User, message: string, new room: ChatChannel?, c: Conn, out: Outbox)
    reads storage, RoomSet(room), if room == null then {} else room.users, out
  {
    && (room != null ==> user in old(storage.userToChat) && room == old(storage.userToChat)[user])
    && (room != null <==> old(storage.HasCurrentRoom(user)))
    && (room == null ==> Replied(out, c, [NotJoined]))
    && (room != null ==>
          && user in storage.userToChat && room == storage.userToChat[user]
          && room.users == old(room.users) + {user}
          && room.messages == Newest(old(room.messages) + [user.username + ": " + message], Bound(room.maxMessageCount))
          && (forall d :: out.Sent(d) == old(out.Sent(d)) + Repeat(ChatLine(user, message), Holders(room.users, d)))
          && out.closed == old(out.closed))
  }

  /** write on a registered room: the directory invariant is kept, since membership does not change. */
  method Broadcast(storage: LocalStorage, room: ChatChannel, user: User, message: string, out: Outbox)
    requires storage.Valid() && room in storage.chatChannels
    modifies room`messages, out
    ensures storage.Valid()
    ensures forall d :: out.Sent(d) == old(out.Sent(d)) + Repeat(ChatLine(user, message), Holders(room.users, d))
    ensures room.messages == Newest(old(room.messages) + [user.username + ": " + message], Bound(room.maxMessageCount))
    ensures out.closed == old(out.closed)
  {
    room.Write(user, message, out);
    assert forall r :: r in storage.chatChannels && r != room ==> r.messages == old(r.messages);
  }

  /** The body of sendMessage after the login test. */
  method Post(c: Conn, storage: LocalStorage, user: User, message: string, out: Outbox) returns (ghost room: ChatChannel?)
    requires storage.Valid()
    modifies storage.MappedRoom(user)`users, storage.MappedRoom(user)`messages, out
    ensures storage.Valid()
    ensures Messaged(storage, user, message, room, c, out)
    ensures room == null ==> unchanged(storage.chatChannels)
    ensures forall r :: r in old(storage.chatChannels) && r != room ==> r.users == old(r.users) && r.messages == old(r.messages)
  {
    var channel := storage.GetCurrentChatChannel(user);
    if channel != null {
      assert storage.MappedRoom(user) == {channel};
      Broadcast(storage, channel, user, message, out);
    } else {
      out.WriteAndFlush(c, NotJoined);
    }
    room := channel;
  }

  /** What sendMessage does: the login error without a user, otherwise `message` has gone to the current room. */
  twostate predicate MessageHandled(storage: LocalStorage, user: User?, message: string, new room: ChatChannel?, c: Conn, out: Outbox)
    reads storage, RoomSet(room), if room == null then {} else room.users, out
  {
    && (user == null ==> room == null && Replied(out, c, [PleaseLogin]))
    && (user != null ==> Messaged(storage, user, message, room, c, out))
  }

  /**
   * sendMessage: the login error when no user is bound; otherwise the
   * message goes to the current room, or the not-joined reply when there is
   * none. The room is returned for the contract.
   */
  method SendMessage(c: Conn, storage: LocalStorage, user: User?, message: string, out: Outbox) returns (ghost room: ChatChannel?)
    requires storage.Valid()
    modifies storage.MappedRoom(user)`users, storage.MappedRoom(user)`messages, out
    ensures storage.Valid()
    ensures MessageHandled(storage, user, message, room, c, out)
    ensures room == null ==> unchanged(storage.chatChannels)
    ensures forall r :: r in old(storage.chatChannels) && r != room ==> r.users == old(r.users) && r.messages == old(r.messages)
  {
    var required := LoginRequired(c, out, user);
    if required {
      return null;
    }
    assert unchanged(storage, storage.chatChannels);
    room := Post(c, storage, user, message, out);
  }

  /** What a /login argument asks for, judged against the user list before the command. */
  datatype LoginRequest =
    | MissingCredentials
    | MalformedCredentials
    | WrongCredentials
    | NewAccount(name: string, password: string)
    | KnownAccount(account: User, name: string)

  /**
   * The branches of handleLogin: no argument; an argument that does not
   * split into exactly two words; a name no user has (ignoring case); a
   * stored user whose password differs; the stored user with that password.
   */
  function Classify(storage: LocalStorage, argument: Option<string>): (q: LoginRequest)
    reads storage
    ensures q.MissingCredentials? <==> argument.None?
    ensures q.MalformedCredentials? <==> argument.Some? && |Split(argument.value)| != 2
    ensures q.NewAccount? ==> storage.GetUserByName(q.name) == null && argument.Some? && Split(argument.value) == [q.name, q.password]
    ensures q.KnownAccount? ==> q.account in storage.users && q.account == storage.GetUserByName(q.name)
                                && argument.Some? && Split(argument.value) == [q.name, q.account.password]
    ensures q.WrongCredentials? ==> argument.Some? && |Split(argument.value)| == 2
                                    && var u := storage.GetUserByName(Split(argument.value)[0]);
                                       u != null && u.password != Split(argument.value)[1]
  {
    if argument.None? then MissingCredentials
    else
      var parts := Split(argument.value);
      if |parts| != 2 then MalformedCredentials
      else
        var user := storage.GetUserByName(parts[0]);
        if user == null then NewAccount(parts[0], parts[1])
        else if user.password == parts[1] then KnownAccount(user, parts[0])
        else WrongCredentials
  }

  /**
   * A /login argument of two words separated by whitespace asks for the
   * account of the first word with the second as password: a sign-up when
   * no user has that name, a login when the password matches, and a
   * refusal otherwise.
   */
  lemma ClassifyTwoWords(storage: LocalStorage, name: string, gap: string, password: string)
    requires name != [] && password != [] && NoSpace(name) && NoSpace(password)
    requires gap != [] && AllSpace(gap)
    ensures var u := storage.GetUserByName(name);
            Classify(storage, Some(name + gap + password)) ==
              if u == null then NewAccount(name, password)
              else if u.password == password then KnownAccount(u, name)
              else WrongCredentials
  {
    SplitTwoWords(name, gap, password);
  }

  /** Whether `user` is a member of the room they are mapped to. */
  ghost predicate Seated(storage: LocalStorage, user: User)
    reads storage, storage.MappedRoom(user)
  {
    user in storage.userToChat && user in storage.userToChat[user].users
  }

  /**
   * logoutUser on the identity bound to `c`, the binding of `c` to `user`
   * and loginUser: `c` moves from the previous identity to `user`, and the
   * previous identity leaves its room when `c` was its last connection.
   */
  method Rebind(c: Conn, storage: LocalStorage, attrs: UserAttribute, prev: User?, user: User)
    requires Wired(storage, attrs) && user in storage.users
    requires prev == attrs.Get(c) && storage.CanLogout(c, prev)
    modifies attrs, LocalStorage.Present(prev)`channels, storage.MappedRoom(prev)`users, user`channels
    ensures Wired(storage, attrs)
    ensures attrs.bound == old(attrs.bound)[c := user]
    ensures user.channels == old(user.channels) + {c}
    ensures prev != null && prev != user ==> prev.channels == old(prev.channels) - {c}
    ensures old(storage.HasCurrentRoom(user)) ==> storage.HasCurrentRoom(user)
    ensures forall v :: v in storage.users && v != user && v != prev ==> v.channels == old(v.channels)
  {
    Release(c, storage, prev, user);
    Bind(c, storage, attrs, user);
  }

  /** attr(USER_KEY).set(user) and loginUser: `c` is bound to `user` and is one of their connections. */
  method Bind(c: Conn, storage: LocalStorage, attrs: UserAttribute, user: User)
    requires Wired(storage, attrs) && user in storage.users
    modifies attrs, user`channels
    ensures Wired(storage, attrs)
    ensures attrs.bound == old(attrs.bound)[c := user]
    ensures user.channels == old(user.channels) + {c}
    ensures forall v :: v in storage.users && v != user ==> v.channels == old(v.channels)
  {
    attrs.Set(c, user);
    storage.LoginUser(c, user);
  }

  /** A room that only loses members stays open to a user it was open to. */
  lemma StillOpen(before: set<User>, after: set<User>, user: User)
    requires after <= before && |before| <= Capacity
    requires user in before || |before| < Capacity
    ensures user in after || |after| < Capacity
  {
    if user !in after {
      SubsetSize(after, before - {user});
    }
  }

  /** logoutUser on the identity `prev` bound to `c`, told room by room. */
  method Release(c: Conn, storage: LocalStorage, prev: User?, ghost user: User)
    requires storage.Valid() && storage.CanLogout(c, prev)
    modifies LocalStorage.Present(prev)`channels, storage.MappedRoom(prev)`users
    ensures storage.Valid()
    ensures old(storage.HasCurrentRoom(user)) ==> storage.HasCurrentRoom(user)
    ensures prev != null ==> prev.channels == old(prev.channels) - {c}
    ensures forall v :: v in storage.users && v != prev ==> v.channels == old(v.channels)
  {
    storage.LogoutUser(c, prev);
    if old(storage.HasCurrentRoom(user)) {
      var room := storage.userToChat[user];
      StillOpen(old(room.users), room.users, user);
    }
  }

  /**
   * The join of a logged-in user's current room: getCurrentChatChannel,
   * then joinChannel on what it returns. The registry and the mapping are
   * unchanged; `user` ends up seated exactly when they had a current room,
   * and then the reply is the joined line and the history.
   */
  method Rejoin(c: Conn, storage: LocalStorage, user: User, out: Outbox)
    requires storage.Valid() && user in storage.users
    modifies storage`chatChannels, storage`userToChat, storage.chatChannels`users, out
    ensures storage.Valid()
    ensures storage.chatChannels == old(storage.chatChannels)
    ensures storage.userToChat == old(storage.userToChat)
    ensures Seated(storage, user) <==> old(storage.HasCurrentRoom(user))
    ensures Replied(out, c, if Seated(storage, user) then JoinReply(storage.userToChat[user], true) else [])
  {
    var room := storage.GetCurrentChatChannel(user);
    // joinChannel returns at once on a null room
    if room != null {
      Reseat(c, storage, user, room, out);
    }
  }

  /**
   * joinChannel on the current room of `user`, who is already a member of
   * it: `user` is taken out and admitted again, so only the reply is new.
   */
  method Reseat(c: Conn, storage: LocalStorage, user: User, room: ChatChannel, out: Outbox)
    requires storage.Valid() && user in storage.users
    requires user in storage.userToChat && room == storage.userToChat[user] && user in room.users
    modifies storage`chatChannels, storage`userToChat, storage.chatChannels`users, out
    ensures storage.Valid()
    ensures storage.chatChannels == old(storage.chatChannels)
    ensures storage.userToChat == old(storage.userToChat)
    ensures forall r :: r in storage.chatChannels ==> r.users - {user} == old(r.users) - {user}
    ensures room.users == old(room.users)
    ensures Replied(out, c, JoinReply(room, true))
  {
    assert storage.userToChat[user := room] == storage.userToChat;
    assert room.users + {user} == room.users;
    assert |room.users - {user}| < Capacity by {
      assert room.users == (room.users - {user}) + {user};
    }
    assert storage.chatChannels + {room} == storage.chatChannels;
    JoinChannel(c, storage, user, room, out);
  }

  /** The branch of handleLogin for a known user with the right password. */
  method Accept(c: Conn, storage: LocalStorage, attrs: UserAttribute, prev: User?, user: User, name: string, out: Outbox)
    requires Wired(storage, attrs) && user in storage.users
    requires prev == attrs.Get(c) && storage.CanLogout(c, prev)
    modifies attrs, LocalStorage.Present(prev)`channels, storage`chatChannels, storage`userToChat, storage.chatChannels`users, user`channels, out
    ensures Wired(storage, attrs)
    ensures Accepted(storage, attrs, prev, user, name, c, out)
  {
    Rebind(c, storage, attrs, prev, user);
    Greet(c, storage, prev, user, name, out);
  }

  /** The login line, then the join of the user's current room; no identity's connections change. */
  method Greet(c: Conn, storage: LocalStorage, ghost prev: User?, user: User, name: string, out: Outbox)
    requires storage.Valid() && user in storage.users
    modifies storage`chatChannels, storage`userToChat, storage.chatChannels`users, out
    ensures storage.Valid()
    ensures storage.chatChannels == old(storage.chatChannels)
    ensures storage.userToChat == old(storage.userToChat)
    ensures Seated(storage, user) <==> old(storage.HasCurrentRoom(user))
    ensures Replied(out, c, [LoggedInAs(name)] + if Seated(storage, user) then JoinReply(storage.userToChat[user], true) else [])
    ensures prev != null ==> prev.channels == old(prev.channels)
    ensures forall v :: v in storage.users ==> v.channels == old(v.channels)
  {
    out.WriteAndFlush(c, LoggedInAs(name));
    Rejoin(c, storage, user, out);
    AppendTwice(old(out.Sent(c)), [LoggedInAs(name)], if Seated(storage, user) then JoinReply(storage.userToChat[user], true) else []);
  }

  /**
   * What handleLogin does for a known user with the right password: `c`
   * is bound to `user` and becomes one of their connections (and stops
   * being one of the previously bound identity's), and no other user's
   * connections change; the registry and the mapping stay; the reply is the login line, followed by the join reply
   * of their room when they end up seated in it, which they do whenever
   * they had a current room before.
   */
  twostate predicate Accepted(storage: LocalStorage, attrs: UserAttribute, prev: User?, user: User, name: string, c: Conn, out: Outbox)
    reads storage, storage.chatChannels, storage.users, LocalStorage.Present(prev), user, storage.MappedRoom(user), attrs, out
  {
    && prev == old(attrs.Get(c))
    && attrs.bound == old(attrs.bound)[c := user]
    && user.channels == old(user.channels) + {c}
    && (prev != null && prev != user ==> prev.channels == old(prev.channels) - {c})
    && storage.users == old(storage.users)
    && (forall v :: v in storage.users && v != user && v != prev ==> v.channels == old(v.channels))
    && storage.chatChannels == old(storage.chatChannels)
    && storage.userToChat == old(storage.userToChat)
    && (old(storage.HasCurrentRoom(user)) ==> Seated(storage, user))
    && Replied(out, c, [LoggedInAs(name)] + if Seated(storage, user) then JoinReply(storage.userToChat[user], true) else [])
  }

  /**
   * What handleLogin does with `argument` on connection `c`, bound to `prev`
   * before: `request` is how the argument classifies; the three refusals
   * change nothing but the reply, a new name signs up and a known name
   * with its password logs in.
   */
  twostate predicate LoginHandled(storage: LocalStorage, attrs: UserAttribute, prev: User?, argument: Option<string>,
                                  new request: LoginRequest, new user: User?, c: Conn, out: Outbox)
    reads storage, storage.chatChannels, storage.users, LocalStorage.Present(prev), LocalStorage.Present(user),
          storage.MappedRoom(user), attrs, out
  {
    && prev == old(attrs.Get(c))
    && request == old(Classify(storage, argument))
    && (request.MissingCredentials? ==> Quiet(storage, attrs) && Replied(out, c, [MissingArguments]))
    && (request.MalformedCredentials? ==> Quiet(storage, attrs) && Replied(out, c, [InvalidArguments]))
    && (request.WrongCredentials? ==> Quiet(storage, attrs) && Replied(out, c, [WrongPassword]))
    && (request.NewAccount? ==> user != null && SignedUp(storage, attrs, user, request.name, request.password, c, out))
    && (request.KnownAccount? ==> user == request.account && Accepted(storage, attrs, prev, request.account, request.name, c, out))
  }

  /**
   * handleLogin: a missing argument, an argument that is not exactly two
   * words, and a wrong password are refused with their error line and
   * change nothing; an unknown name creates the account, bound to `c`; a
   * known name with the right password logs `c` in as that user.
   */
  method HandleLogin(c: Conn, storage: LocalStorage, attrs: UserAttribute, argument: Option<string>, out: Outbox)
      returns (ghost request: LoginRequest, ghost user: User?)
    requires Wired(storage, attrs)
    requires Classify(storage, argument).KnownAccount? ==> storage.CanLogout(c, attrs.Get(c))
    modifies storage`users, storage`chatChannels, storage`userToChat, storage.chatChannels`users, storage.users`channels, attrs, out
    ensures Wired(storage, attrs)
    ensures LoginHandled(storage, attrs, old(attrs.Get(c)), argument, request, user, c, out)
  {
    request := Classify(storage, argument);
    user := null;
    if argument.None? {
      out.WriteAndFlush(c, MissingArguments);
      return;
    }
    var parts := Split(argument.value);
    if |parts| != 2 {
      out.WriteAndFlush(c, InvalidArguments);
      return;
    }
    var userName, password := parts[0], parts[1];
    var found := storage.GetUserByName(userName);
    if found != null {
      if found.password == password {
        Accept(c, storage, attrs, attrs.Get(c), found, userName, out);
        user := found;
      } else {
        out.WriteAndFlush(c, WrongPassword);
      }
    } else {
      var created := SignUp(c, storage, attrs, userName, password, out);
      user := created;
    }
  }

  /** The branch of handleLogin for a name no user has: createUser, then the welcome line. */
  method SignUp(c: Conn, storage: LocalStorage, attrs: UserAttribute, name: string, password: string, out: Outbox) returns (user: User)
    requires Wired(storage, attrs) && storage.GetUserByName(name) == null
    modifies storage`users, attrs, out
    ensures Wired(storage, attrs)
    ensures SignedUp(storage, attrs, user, name, password, c, out)
  {
    user := storage.CreateUser(c, name, password, attrs);
    out.WriteAndFlush(c, Welcome(name));
  }

  /**
   * What handleLogin does for a new name: a fresh user with that name and
   * password and only connection `c`, appended to the user list, bound to
   * `c` and found by name from now on; the other users' connections, the
   * rooms and the mapping stay as they were, and the reply is the welcome
   * line.
   */
  twostate predicate SignedUp(storage: LocalStorage, attrs: UserAttribute, new user: User, name: string, password: string, c: Conn, out: Outbox)
    reads storage, storage.chatChannels, storage.users, user, attrs, out
  {
    && fresh(user)
    && user.username == name && user.password == password && user.channels == {c}
    && storage.users == old(storage.users) + [user]
    && (forall v :: v in storage.users && v != user ==> v.channels == old(v.channels))
    && attrs.bound == old(attrs.bound)[c := user]
    && storage.GetUserByName(name) == user
    && storage.chatChannels == old(storage.chatChannels)
    && storage.userToChat == old(storage.userToChat)
    && unchanged(storage.chatChannels)
    && Replied(out, c, [Welcome(name)])
  }
}
