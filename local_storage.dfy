/**
 * chat.data.LocalStorage: the directory of the chat server. It keeps the
 * list of every user ever created, the registry of rooms, and the map from
 * a user to the room they last joined; it also binds a connection to the
 * user logged in on it (the attribute USER_KEY).
 */
module Data {
  import opened JavaText
  import opened Transport
  import opened UserModel
  import opened ChannelModel

  /** attr(USER_KEY) on every connection: the user the connection is bound to, if any. */
  class UserAttribute {
    var bound: map<Conn, User>

    constructor ()
      ensures bound == map[]
    {
      bound := map[];
    }

    /** attr(USER_KEY).get(): null on a connection no user is bound to. */
    function Get(c: Conn): User?
      reads this
    {
      if c in bound then bound[c] else null
    }

    /** attr(USER_KEY).set(user). */
    method Set(c: Conn, user: User)
      modifies this
      ensures bound == old(bound)[c := user]
    {
      bound := bound[c := user];
    }
  }

  /** Position of the first user of `us` named `name` ignoring case, or |us| when there is none. */
  function FirstNamed(us: seq<User>, name: string): (i: nat)
    ensures i <= |us|
    ensures i < |us| ==> EqualsIgnoreCase(us[i].username, name)
    ensures forall j :: 0 <= j < i ==> !EqualsIgnoreCase(us[j].username, name)
  {
    if us == [] then 0
    else if EqualsIgnoreCase(us[0].username, name) then 0
    else 1 + FirstNamed(us[1..], name)
  }

  /** Position of the first user of `us` holding connection `c`, or |us| when there is none. */
  function FirstHolding(us: seq<User>, c: Conn): (i: nat)
    reads us
    ensures i <= |us|
    ensures i < |us| ==> c in us[i].channels
    ensures forall j :: 0 <= j < i ==> c !in us[j].channels
  {
    if us == [] then 0
    else if c in us[0].channels then 0
    else 1 + FirstHolding(us[1..], c)
  }

  class LocalStorage {
    var users: seq<User>
    var chatChannels: set<ChatChannel>
    var userToChat: map<User, ChatChannel>

    /**
     * The directory invariant: every registered room is within its bounds;
     * no two registered rooms share a name; a mapped user is a stored user
     * and is mapped to a registered room; and a member of a registered room
     * is mapped to that very room, so a user is a member of at most one room.
     */
    ghost predicate Valid()
      reads this, chatChannels
    {
      && (forall r :: r in chatChannels ==> r.Valid())
      && (forall r, s :: r in chatChannels && s in chatChannels && r.name == s.name ==> r == s)
      && (forall u :: u in userToChat ==> u in users && userToChat[u] in chatChannels)
      && (forall r, u :: r in chatChannels && u in r.users ==> u in userToChat && userToChat[u] == r)
    }

    /** No two stored users have the same name ignoring case. */
    ghost predicate NamesDistinct()
      reads this
    {
      DistinctNames(users)
    }

    constructor ()
      ensures users == [] && chatChannels == {} && userToChat == map[]
      ensures Valid() && NamesDistinct()
    {
      users := [];
      chatChannels := {};
      userToChat := map[];
    }

    /** getChatChannels: the registered rooms. */
    function GetChatChannels(): (rs: set<ChatChannel>)
      reads this
      ensures rs == chatChannels
    {
      chatChannels
    }

    /** loginUser: `user` gains connection `c`. */
    method LoginUser(c: Conn, user: User)
      modifies user`channels
      ensures user.channels == old(user.channels) + {c}
    {
      user.AddChannel(c);
    }

    /** `user` as a set: empty for null. */
    static function Present(user: User?): set<User> {
      if user == null then {} else {user}
    }

    /** The room `user` is mapped to, as a set of at most one room. */
    function MappedRoom(user: User?): set<ChatChannel>
      reads this
    {
      if user != null && user in userToChat then {userToChat[user]} else {}
    }

    /**
     * logoutUser(c, user) runs without a NullPointerException: when `c` is
     * the last connection of `user`, the lookup userToChat.get(user) must
     * find a room.
     */
    predicate CanLogout(c: Conn, user: User?)
      reads this, user
    {
      user != null && user.channels - {c} == {} ==> user in userToChat
    }

    /**
     * logoutUser: `user` loses connection `c`; when that was their last
     * one, they also stop being a member of their mapped room. The mapping
     * itself stays, and a null user changes nothing.
     */
    method LogoutUser(c: Conn, user: User?)
      requires Valid() && CanLogout(c, user)
      modifies Present(user)`channels, MappedRoom(user)`users
      ensures Valid()
      ensures user != null ==> user.channels == old(user.channels) - {c}
      ensures user != null && user in userToChat ==>
                var r := userToChat[user];
                r.users == if old(user.channels) - {c} == {} then old(r.users) - {user} else old(r.users)
    {
      if user != null {
        user.RemoveChannel(c);
        if user.GetChannels() == {} {
          userToChat[user].RemoveUser(user);
        }
      }
      ShrinkingKeepsValid(this);
    }

    /**
     * createUser: a new user with only connection `c`, bound to `c` and
     * appended to the user list. Lookup by name then finds the first
     * matching user as before, or the new one when there was none.
     */
    method CreateUser(c: Conn, username: string, password: string, attrs: UserAttribute) returns (user: User)
      requires Valid()
      modifies this`users, attrs
      ensures fresh(user) && user.username == username && user.password == password
      ensures user.channels == {c}
      ensures users == old(users) + [user]
      ensures attrs.bound == old(attrs.bound)[c := user]
      ensures Valid()
      ensures GetUserByName(username) == if old(GetUserByName(username)) != null then old(GetUserByName(username)) else user
      ensures old(NamesDistinct() && GetUserByName(username) == null) ==> NamesDistinct()
    {
      user := new User(username, password);
      attrs.Set(c, user);
      user.AddChannel(c);
      FirstNamedAppend(users, user, username);
      AppendKeepsNamesDistinct(users, user);
      users := users + [user];
      ShrinkingKeepsValid(this);
    }

    /** getUserByName: the first stored user named `username` ignoring case, or null when there is none. */
    function GetUserByName(username: string): (u: User?)
      reads this
      ensures u == null <==> forall v :: v in users ==> !EqualsIgnoreCase(v.username, username)
      ensures u != null ==> u in users && EqualsIgnoreCase(u.username, username)
    {
      var i := FirstNamed(users, username);
      if i < |users| then users[i] else null
    }

    /** getUserList: the members of the room `user` is mapped to, or none when unmapped. */
    function GetUserList(user: User): (us: set<User>)
      reads this, MappedRoom(user)
      ensures user in userToChat ==> us == userToChat[user].users
      ensures user !in userToChat ==> us == {}
    {
      if user in userToChat then userToChat[user].users else {}
    }

    /** getCurrentChatChannel finds a room: `user` is mapped, and already a member or the room has space. */
    ghost predicate HasCurrentRoom(user: User)
      reads this, MappedRoom(user)
    {
      user in userToChat && (user in userToChat[user].users || |userToChat[user].users| < Capacity)
    }

    /**
     * getCurrentChatChannel: the mapped room when `user` is a member of it,
     * after re-admitting them if they are not; null, with nothing changed,
     * when `user` is unmapped or the mapped room is full.
     */
    method GetCurrentChatChannel(user: User) returns (room: ChatChannel?)
      requires Valid()
      modifies MappedRoom(user)`users
      ensures Valid()
      ensures room != null <==> old(HasCurrentRoom(user))
      ensures room != null ==> room == userToChat[user] && room.users == old(room.users) + {user}
      ensures room == null ==> forall r :: r in MappedRoom(user) ==> r.users == old(r.users)
    {
      if user in userToChat {
        var r := userToChat[user];
        if user in r.GetUsers() {
          room := r;
        } else {
          var added := r.AddUser(user);
          room := if added then r else null;
        }
      } else {
        room := null;
      }
    }

    /** anyChannelContainsUser: whether `user` has a mapping entry, member or not. */
    function AnyChannelContainsUser(user: User): (b: bool)
      reads this
      ensures b <==> user in userToChat
    {
      user in userToChat
    }

    /** removeUserFromChannels: `user` is a member of no registered room; nothing else changes. */
    method RemoveUserFromChannels(user: User)
      requires Valid()
      modifies chatChannels`users
      ensures Valid()
      ensures forall r :: r in chatChannels ==> r.users == old(r.users) - {user}
    {
      DropFromRooms(chatChannels, user);
      ShrinkingKeepsValid(this);
    }

    /** removeChannelFromUser: erases the mapping entry of `user` and no other. */
    method RemoveChannelFromUser(user: User)
      modifies this`userToChat
      ensures userToChat == old(userToChat) - {user}
      ensures old(Valid()) && (forall r :: r in chatChannels ==> user !in r.users) ==> Valid()
    {
      userToChat := userToChat - {user};
    }

    /** addChatChannelToUser: maps `user` to `room`, replacing their entry if any. */
    method AddChatChannelToUser(user: User, room: ChatChannel)
      modifies this`userToChat
      ensures userToChat == old(userToChat)[user := room]
    {
      userToChat := userToChat[user := room];
    }

    /** addChatChannel: registers `room`. */
    method AddChatChannel(room: ChatChannel)
      modifies this`chatChannels
      ensures chatChannels == old(chatChannels) + {room}
    {
      chatChannels := chatChannels + {room};
    }

    /** getUserByChannel: the first stored user holding connection `c`, or null when none does. */
    function GetUserByChannel(c: Conn): (u: User?)
      reads this, users
      ensures u == null <==> forall v :: v in users ==> c !in v.channels
      ensures u != null ==> u in users && c in u.channels
    {
      var i := FirstHolding(users, c);
      if i < |users| then users[i] else null
    }
  }

  /** The forEach of removeUserFromChannels: each room of `rooms` that has `user` as a member removes them. */
  method DropFromRooms(rooms: set<ChatChannel>, user: User)
    requires forall r :: r in rooms ==> r.Valid()
    modifies rooms`users
    ensures forall r :: r in rooms ==> r.users == old(r.users) - {user}
  {
    var todo := rooms;
    while todo != {}
      invariant todo <= rooms
      invariant forall r :: r in rooms ==> r.Valid()
      invariant forall r :: r in todo ==> r.users == old(r.users)
      invariant forall r :: r in rooms && r !in todo ==> r.users == old(r.users) - {user}
      decreases |todo|
    {
      var r :| r in todo;
      if user in r.GetUsers() {
        r.RemoveUser(user);
      }
      todo := todo - {r};
    }
  }

  /** No two users of `us` have the same name ignoring case. */
  ghost predicate DistinctNames(us: seq<User>) {
    forall i, j :: 0 <= i < j < |us| ==> Lower(us[i].username) != Lower(us[j].username)
  }

  /** A user whose name matches no name of a list ignoring case keeps the names of the list distinct. */
  lemma AppendKeepsNamesDistinct(us: seq<User>, u: User)
    ensures DistinctNames(us) && FirstNamed(us, u.username) == |us| ==> DistinctNames(us + [u])
  {
    if DistinctNames(us) && FirstNamed(us, u.username) == |us| {
      forall j | 0 <= j < |us| ensures Lower(us[j].username) != Lower(u.username) {
        EqualsIgnoreCaseIsLower(us[j].username, u.username);
      }
      forall i, j | 0 <= i < j < |us + [u]| ensures Lower((us + [u])[i].username) != Lower((us + [u])[j].username) {
        if j == |us| {
          assert (us + [u])[j] == u && (us + [u])[i] == us[i];
        } else {
          assert (us + [u])[j] == us[j] && (us + [u])[i] == us[i];
        }
      }
    }
  }

  /**
   * The directory invariant survives when the registry and the mapping stay,
   * the user list only grows, and rooms only lose members.
   */
  twostate lemma ShrinkingKeepsValid(storage: LocalStorage)
    requires old(storage.Valid())
    requires storage.chatChannels == old(storage.chatChannels) && storage.userToChat == old(storage.userToChat)
    requires forall u :: u in old(storage.users) ==> u in storage.users
    requires forall r :: r in storage.chatChannels ==> r.users <= old(r.users) && r.messages == old(r.messages)
    ensures storage.Valid()
  {
    forall r | r in storage.chatChannels ensures r.Valid() {
      SubsetSize(r.users, old(r.users));
    }
  }

  /** Appending a user moves the first match by name only when there was none before. */
  lemma {:induction false} FirstNamedAppend(us: seq<User>, u: User, name: string)
    ensures FirstNamed(us + [u], name) ==
              if FirstNamed(us, name) < |us| then FirstNamed(us, name)
              else if EqualsIgnoreCase(u.username, name) then |us| else |us| + 1
  {
    var i := FirstNamed(us, name);
    forall j | 0 <= j < |us| ensures (us + [u])[j] == us[j] {
    }
    assert (us + [u])[|us|] == u;
  }

  /**
   * For stored users, equals is identity: the names are distinct ignoring
   * case, so the HashSet and ConcurrentHashMap lookups on users behave as
   * lookups of the very object.
   */
  lemma StoredEqualsIsIdentity(storage: LocalStorage, u: User, v: User)
    requires storage.NamesDistinct()
    requires u in storage.users && v in storage.users
    ensures u.Equals(v) <==> u == v
  {
    if u != v {
      var i :| 0 <= i < |storage.users| && storage.users[i] == u;
      var j :| 0 <= j < |storage.users| && storage.users[j] == v;
      if i < j {
        assert Lower(u.username) != Lower(v.username);
      } else {
        assert Lower(v.username) != Lower(u.username);
      }
    }
  }

  /** A user is a member of at most one registered room, the one they are mapped to. */
  lemma OneRoomEach(storage: LocalStorage, u: User, r: ChatChannel, s: ChatChannel)
    requires storage.Valid()
    requires r in storage.chatChannels && s in storage.chatChannels
    requires u in r.users && u in s.users
    ensures r == s && storage.AnyChannelContainsUser(u) && storage.userToChat[u] == r
  {
    assert u in storage.userToChat && storage.userToChat[u] == r;
    assert storage.userToChat[u] == s;
  }
}
