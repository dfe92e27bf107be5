/**
 * chat.handler.ChatHandler: every line a client sends is trimmed and cut
 * at its first run of whitespace into a command word and an optional
 * argument; the command word picks the ChatService handler, and anything
 * that is not one of the six command words is a chat message. A closed
 * connection logs its user out.
 */
module Handler {
  import opened JavaText
  import opened Transport
  import opened UserModel
  import opened ChannelModel
  import opened Data
  import opened Service

  /** The handler a line is routed to. */
  datatype Command = Login | Join | Leave | Disconnect | List | Users | Say

  /** The command word that selects `k`; a chat message has none. */
  function Keyword(k: Command): (w: string)
    requires k != Say
    ensures w != [] && w[0] == '/' && NoSpace(w)
  {
    match k
    case Login => "/login"
    case Join => "/join"
    case Leave => "/leave"
    case Disconnect => "/disconnect"
    case List => "/list"
    case Users => "/users"
  }

  /** The switch of channelRead0: a command word selects its handler, every other word a chat message. */
  function Route(command: string): (k: Command)
    ensures k != Say ==> command == Keyword(k)
  {
    if command == "/login" then Login
    else if command == "/join" then Join
    else if command == "/leave" then Leave
    else if command == "/disconnect" then Disconnect
    else if command == "/list" then List
    else if command == "/users" then Users
    else Say
  }

  /** Each command word routes to its own handler, and no word routes to two. */
  lemma RouteKeyword(k: Command)
    requires k != Say
    ensures Route(Keyword(k)) == k
  {
  }

  /**
   * msg.trim().split("\\s+", 2): the command word, and the argument when
   * the trimmed line has whitespace inside it. The argument runs from the
   * first non-whitespace character after the command word to the end of the
   * trimmed line, so it is never empty and keeps its inner whitespace.
   */
  function Tokenize(msg: string): (r: (string, Option<string>))
    ensures NoSpace(r.0)
    ensures r.1.None? <==> NoSpace(Trim(msg))
    ensures r.1.None? ==> r.0 == Trim(msg)
    ensures r.1.Some? ==> r.1.value != [] && !IsSpace(r.1.value[0]) && ' ' < r.1.value[|r.1.value| - 1]
  {
    ArgumentShape(Trim(msg));
    SplitOnce(Trim(msg))
  }

  /** On a trimmed text the argument ends where the text ends, so it is not empty. */
  lemma ArgumentShape(t: string)
    requires t == [] || (' ' < t[0] && ' ' < t[|t| - 1])
    ensures var r := SplitOnce(t); r.1.Some? ==> r.1.value != [] && ' ' < r.1.value[|r.1.value| - 1]
  {
    var r := SplitOnce(t);
    if r.1.Some? {
      var v := r.1.value;
      var gap := |t| - |r.0| - |v|;
      var mid := t[|r.0|..|r.0| + gap];
      assert t == r.0 + mid + v;
      assert forall k :: |r.0| <= k < |r.0| + gap ==> t[k] == mid[k - |r.0|];
      assert !IsSpace(t[|t| - 1]);
      assert |t| - 1 >= |r.0| + gap;
      assert v[|v| - 1] == t[|t| - 1];
    }
  }

  /** A line built from padding, a word, whitespace and an argument tokenizes back into that word and argument. */
  lemma {:induction false} TokenizeRoundTrip(lead: string, word: string, gap: string, arg: string, trail: string)
    requires forall k :: 0 <= k < |lead| ==> lead[k] <= ' '
    requires forall k :: 0 <= k < |trail| ==> trail[k] <= ' '
    requires word != [] && NoSpace(word) && ' ' < word[0]
    requires gap != [] && AllSpace(gap)
    requires arg != [] && !IsSpace(arg[0]) && ' ' < arg[|arg| - 1]
    ensures Tokenize(lead + word + gap + arg + trail) == (word, Some(arg))
  {
    var core := word + gap + arg;
    assert lead + word + gap + arg + trail == lead + core + trail;
    TrimPadded(lead, core, trail);
    SplitOnceRoundTrip(word, gap, arg);
  }

  /** A lone word, padded, tokenizes into that word and no argument. */
  lemma {:induction false} TokenizeWord(lead: string, word: string, trail: string)
    requires forall k :: 0 <= k < |lead| ==> lead[k] <= ' '
    requires forall k :: 0 <= k < |trail| ==> trail[k] <= ' '
    requires word != [] && NoSpace(word) && ' ' < word[0] && ' ' < word[|word| - 1]
    ensures Tokenize(lead + word + trail) == (word, None)
  {
    TrimPadded(lead, word, trail);
  }

  /** String.trim removes exactly the padding around a text that starts and ends above U+0020. */
  lemma {:induction false} TrimPadded(lead: string, t: string, trail: string)
    requires forall k :: 0 <= k < |lead| ==> lead[k] <= ' '
    requires forall k :: 0 <= k < |trail| ==> trail[k] <= ' '
    requires t != [] && ' ' < t[0] && ' ' < t[|t| - 1]
    ensures Trim(lead + t + trail) == t
  {
    TrimLeftPadded(lead, t + trail);
    assert lead + t + trail == lead + (t + trail);
    TrimRightPadded(t, trail);
  }

  lemma {:induction false} TrimLeftPadded(lead: string, s: string)
    requires forall k :: 0 <= k < |lead| ==> lead[k] <= ' '
    requires s != [] && ' ' < s[0]
    ensures TrimLeft(lead + s) == s
    decreases |lead|
  {
    if lead == [] {
      assert lead + s == s;
    } else {
      assert (lead + s)[1..] == lead[1..] + s;
      TrimLeftPadded(lead[1..], s);
    }
  }

  lemma {:induction false} TrimRightPadded(s: string, trail: string)
    requires forall k :: 0 <= k < |trail| ==> trail[k] <= ' '
    requires s != [] && ' ' < s[|s| - 1]
    ensures TrimRight(s + trail) == s
    decreases |trail|
  {
    if trail == [] {
      assert s + trail == s;
    } else {
      var last := |trail| - 1;
      assert (s + trail)[..|s + trail| - 1] == s + trail[..last];
      TrimRightPadded(s, trail[..last]);
    }
  }

  /**
   * When the handler `cmd` selects runs with `argument` for `user` without
   * a NullPointerException: /join with a name only once logged in
   * (userToChat.containsKey(null) throws), /leave only with a current room,
   * /disconnect only logged in and with a current room, and a /login that
   * rebinds only when the previous identity's last connection has a room
   * mapping.
   */
  ghost predicate Admissible(storage: LocalStorage, c: Conn, user: User?, cmd: Command, argument: Option<string>)
    reads storage, LocalStorage.Present(user), storage.MappedRoom(user)
  {
    match cmd
    case Login => Classify(storage, argument).KnownAccount? ==> storage.CanLogout(c, user)
    case Join => argument.Some? ==> user != null
    case Leave => user != null ==> storage.HasCurrentRoom(user)
    case Disconnect => user != null && storage.HasCurrentRoom(user)
    case List => true
    case Users => true
    case Say => true
  }

  /** The lines channelRead0 handles on `c` without a NullPointerException. */
  ghost predicate Handles(storage: LocalStorage, attrs: UserAttribute, c: Conn, msg: string)
    reads storage, attrs, LocalStorage.Present(attrs.Get(c)), storage.MappedRoom(attrs.Get(c))
  {
    Admissible(storage, c, attrs.Get(c), Route(Tokenize(msg).0), Tokenize(msg).1)
  }

  /**
   * What the handler `cmd` selects does on connection `c`, bound to `user`
   * before, with the command's `argument` (or, for a chat message, with the
   * whole line `msg`, which plays no part for the other commands): only
   * /login rebinds connections, /list, /users and an undeliverable chat
   * message change nothing but the reply, and the handler has done its
   * part. Only a chat message touches a history, and then only that of its
   * room, whose members are the only ones that may change; only /login and
   * /disconnect change users' connections, in the ways their handlers say.
   * The ghost values name the room, login request, account and listings
   * involved.
   */
  twostate predicate Dispatched(storage: LocalStorage, attrs: UserAttribute, c: Conn, user: User?, cmd: Command,
                                argument: Option<string>, msg: string,
                                new room: ChatChannel?, new request: LoginRequest, new account: User?,
                                new channels: seq<ChatChannel>, new members: seq<User>, out: Outbox)
    reads storage, storage.chatChannels, storage.users, LocalStorage.Present(user), LocalStorage.Present(account),
          storage.MappedRoom(user), storage.MappedRoom(account), RoomSet(room), if room == null then {} else room.users, attrs, out
  {
    && user == old(attrs.Get(c))
    && (cmd != Login ==> attrs.bound == old(attrs.bound))
    && (cmd != Say ==> forall r :: r in old(storage.chatChannels) ==> r in storage.chatChannels && r.messages == old(r.messages))
    && (cmd == Say ==> storage.chatChannels == old(storage.chatChannels) &&
                       forall r :: r in storage.chatChannels && r != room ==> r.users == old(r.users) && r.messages == old(r.messages))
    && (cmd != Login ==> storage.users == old(storage.users))
    && (cmd != Login && cmd != Disconnect ==> forall v :: v in storage.users ==> v.channels == old(v.channels))
    && match cmd
       case Login => LoginHandled(storage, attrs, user, argument, request, account, c, out)
       case Join => JoinHandled(storage, user, argument, room, c, out)
       case Leave => LeaveHandled(storage, user, room, c, out)
       case Disconnect => user != null && room != null && LoggedOut(storage, user, room, c, out)
       case List => Quiet(storage, attrs) && Enumerates(channels, storage.chatChannels) && Replied(out, c, Lines(Names(channels)))
       case Users => Quiet(storage, attrs) && Listed(storage, user, members, c, out)
       case Say => MessageHandled(storage, user, msg, room, c, out) && (room == null ==> Quiet(storage, attrs))
  }

  /**
   * channelRead0: the line is tokenized, the user bound to `c` looked up,
   * and the handler the command word selects runs with them; a chat
   * message is the whole line as received. Whatever runs, the handlers'
   * invariant is kept.
   */
  method ChannelRead0(c: Conn, storage: LocalStorage, attrs: UserAttribute, msg: string, out: Outbox)
      returns (ghost cmd: Command, ghost room: ChatChannel?, ghost request: LoginRequest, ghost account: User?,
               ghost channels: seq<ChatChannel>, ghost members: seq<User>)
    requires Wired(storage, attrs) && Handles(storage, attrs, c, msg)
    modifies storage`users, storage`chatChannels, storage`userToChat, storage.chatChannels`users, storage.chatChannels`messages,
             storage.users`channels, attrs, out
    ensures Wired(storage, attrs)
    ensures cmd == Route(Tokenize(msg).0)
    ensures Dispatched(storage, attrs, c, old(attrs.Get(c)), cmd, Tokenize(msg).1, msg, room, request, account, channels, members, out)
  {
    var (command, argument) := Tokenize(msg);
    var user := attrs.Get(c);
    var route := Route(command);
    cmd, room, request, account, channels, members := route, null, MissingCredentials, null, [], [];
    match route
    case Login =>
      request, account := OnLogin(c, storage, attrs, user, argument, out);
    case Join =>
      room := OnRoomCommand(c, storage, attrs, user, route, argument, out);
    case Leave =>
      room := OnRoomCommand(c, storage, attrs, user, route, argument, out);
    case Disconnect =>
      room := OnRoomCommand(c, storage, attrs, user, route, argument, out);
    case List =>
      room, channels, members := OnOtherCommand(c, storage, attrs, user, route, argument, msg, out);
    case Users =>
      room, channels, members := OnOtherCommand(c, storage, attrs, user, route, argument, msg, out);
    case Say =>
      room, channels, members := OnOtherCommand(c, storage, attrs, user, route, argument, msg, out);
  }

  /** The routes that move a user between rooms: /join, /leave and /disconnect.
    * A grouping of switch arms of channelRead0 with no Java method of its own;
    * it keeps each dispatch proof small. */
  method OnRoomCommand(c: Conn, storage: LocalStorage, attrs: UserAttribute, user: User?, route: Command,
                       argument: Option<string>, out: Outbox)
      returns (ghost room: ChatChannel?)
    requires Wired(storage, attrs) && user == attrs.Get(c) && Admissible(storage, c, user, route, argument)
    requires route == Join || route == Leave || route == Disconnect
    modifies storage`chatChannels, storage`userToChat, storage.chatChannels`users, storage.users`channels, out
    ensures Wired(storage, attrs)
    ensures Dispatched(storage, attrs, c, user, route, argument, [], room, MissingCredentials, null, [], [], out)
  {
    match route
    case Join =>
      room := OnJoin(c, storage, attrs, user, argument, out);
    case Leave =>
      room := OnLeave(c, storage, attrs, user, argument, out);
    case Disconnect =>
      room := OnDisconnect(c, storage, attrs, user, argument, out);
  }

  /** The routes that leave membership alone: /list, /users and chat messages.
    * A grouping of switch arms of channelRead0 with no Java method of its own;
    * it keeps each dispatch proof small. */
  method OnOtherCommand(c: Conn, storage: LocalStorage, attrs: UserAttribute, user: User?, route: Command,
                        argument: Option<string>, msg: string, out: Outbox)
      returns (ghost room: ChatChannel?, ghost channels: seq<ChatChannel>, ghost members: seq<User>)
    requires Wired(storage, attrs) && user == attrs.Get(c)
    requires route == List || route == Users || route == Say
    modifies storage.chatChannels`users, storage.chatChannels`messages, out
    ensures Wired(storage, attrs)
    ensures Dispatched(storage, attrs, c, user, route, argument, msg, room, MissingCredentials, null, channels, members, out)
  {
    room, channels, members := null, [], [];
    match route
    case List =>
      channels := OnList(c, storage, attrs, user, argument, msg, out);
    case Users =>
      members := OnUsers(c, storage, attrs, user, argument, msg, out);
    case Say =>
      room := OnSay(c, storage, attrs, user, argument, msg, out);
  }

  /** The /login route: handleLogin with the argument. */
  method OnLogin(c: Conn, storage: LocalStorage, attrs: UserAttribute, user: User?, argument: Option<string>, out: Outbox)
      returns (ghost request: LoginRequest, ghost account: User?)
    requires Wired(storage, attrs) && user == attrs.Get(c)
    requires Classify(storage, argument).KnownAccount? ==> storage.CanLogout(c, user)
    modifies storage`users, storage`chatChannels, storage`userToChat, storage.chatChannels`users, storage.users`channels, attrs, out
    ensures Wired(storage, attrs)
    ensures Dispatched(storage, attrs, c, user, Login, argument, [], null, request, account, [], [], out)
  {
    request, account := HandleLogin(c, storage, attrs, argument, out);
  }

  /** The /join route: handleJoin with the argument. */
  method OnJoin(c: Conn, storage: LocalStorage, attrs: UserAttribute, user: User?, argument: Option<string>, out: Outbox)
      returns (ghost room: ChatChannel?)
    requires Wired(storage, attrs) && user == attrs.Get(c)
    requires argument.Some? ==> user != null
    modifies storage`chatChannels, storage`userToChat, storage.chatChannels`users, out
    ensures Wired(storage, attrs)
    ensures Dispatched(storage, attrs, c, user, Join, argument, [], room, MissingCredentials, null, [], [], out)
  {
    room := HandleJoin(c, storage, user, argument, out);
  }

  /** The /leave route: handleLeave; the argument is ignored. */
  method OnLeave(c: Conn, storage: LocalStorage, attrs: UserAttribute, user: User?, argument: Option<string>, out: Outbox)
      returns (ghost room: ChatChannel?)
    requires Wired(storage, attrs) && user == attrs.Get(c)
    requires user != null ==> storage.HasCurrentRoom(user)
    modifies storage`userToChat, storage.chatChannels`users, out
    ensures Wired(storage, attrs)
    ensures Dispatched(storage, attrs, c, user, Leave, argument, [], room, MissingCredentials, null, [], [], out)
  {
    room := HandleLeave(c, storage, user, out);
  }

  /** The /disconnect route: logout; the argument is ignored. */
  method OnDisconnect(c: Conn, storage: LocalStorage, attrs: UserAttribute, user: User?, argument: Option<string>, out: Outbox)
      returns (ghost room: ChatChannel?)
    requires Wired(storage, attrs) && user == attrs.Get(c)
    requires user != null && storage.HasCurrentRoom(user)
    modifies user`channels, storage.MappedRoom(user)`users, out
    ensures Wired(storage, attrs)
    ensures Dispatched(storage, attrs, c, user, Disconnect, argument, [], room, MissingCredentials, null, [], [], out)
  {
    room := Logout(c, storage, user, out);
  }

  /** The /list route: listChannels; the argument is ignored. */
  method OnList(c: Conn, storage: LocalStorage, attrs: UserAttribute, user: User?, argument: Option<string>, msg: string, out: Outbox)
      returns (ghost channels: seq<ChatChannel>)
    requires Wired(storage, attrs) && user == attrs.Get(c)
    modifies out
    ensures Wired(storage, attrs)
    ensures Dispatched(storage, attrs, c, user, List, argument, msg, null, MissingCredentials, null, channels, [], out)
  {
    channels := ListChannels(c, storage, out);
  }

  /** The /users route: listUsers; the argument is ignored. */
  method OnUsers(c: Conn, storage: LocalStorage, attrs: UserAttribute, user: User?, argument: Option<string>, msg: string, out: Outbox)
      returns (ghost members: seq<User>)
    requires Wired(storage, attrs) && user == attrs.Get(c)
    modifies out
    ensures Wired(storage, attrs)
    ensures Dispatched(storage, attrs, c, user, Users, argument, msg, null, MissingCredentials, null, [], members, out)
  {
    members := ListUsers(c, storage, user, out);
  }

  /** The default route: sendMessage with the whole line as received. */
  method OnSay(c: Conn, storage: LocalStorage, attrs: UserAttribute, user: User?, argument: Option<string>, msg: string, out: Outbox)
      returns (ghost room: ChatChannel?)
    requires Wired(storage, attrs) && user == attrs.Get(c)
    modifies storage.MappedRoom(user)`users, storage.MappedRoom(user)`messages, out
    ensures Wired(storage, attrs)
    ensures Dispatched(storage, attrs, c, user, Say, argument, msg, room, MissingCredentials, null, [], [], out)
  {
    room := SendMessage(c, storage, user, msg, out);
  }

  /**
   * channelInactive: logout of the stored user holding `c`, which must be
   * found and have a current room (logout crashes otherwise).
   */
  method ChannelInactive(c: Conn, storage: LocalStorage, attrs: UserAttribute, out: Outbox) returns (ghost user: User, ghost room: ChatChannel)
    requires Wired(storage, attrs)
    requires storage.GetUserByChannel(c) != null && storage.HasCurrentRoom(storage.GetUserByChannel(c))
    modifies storage.users`channels, storage.chatChannels`users, out
    ensures Wired(storage, attrs)
    ensures user == old(storage.GetUserByChannel(c)) && c in old(user.channels)
    ensures LoggedOut(storage, user, room, c, out)
  {
    var holder := storage.GetUserByChannel(c);
    assert holder in storage.users;
    var cc := Logout(c, storage, holder, out);
    user, room := holder, cc;
  }
}
