# Chat state engine of Zeptolab-Chat-Assessment, in Dafny

This project models the in-memory chat server of Zeptolab-Chat-Assessment
and proves properties of it:

- the users;
- the rooms (`ChatChannel`), with a membership cap of ten and a bounded history;
- the directory (`LocalStorage`): the user list, the room registry and the map
  from a user to the room they last joined;
- the command handlers of `ChatService`;
- the line dispatcher of `ChatHandler`.

Each Java class whose fields change in place is a Dafny `class`. Each
Java method that changes state is a `method` whose `modifies` clause names
what it changes; each query is a `function`.

The modules follow the Java packages:

| module | file | models |
|---|---|---|
| `JavaText` | `java_text.dfy` | the `java.lang.String` operations the core uses: `toLowerCase`, `equalsIgnoreCase`, `trim`, `split("\\s+")` with and without a limit, `hashCode`, and the fragment of `String.format` the core's format strings reach |
| `Transport` | `transport.dfy` | a connection is an opaque id; `writeAndFlush` appends a line to that connection's output and `close` marks it closed (`Outbox`) |
| `UserModel` | `user.dfy` | `chat.model.User` |
| `ChannelModel` | `chat_channel.dfy` | `chat.model.ChatChannel` and the fan-out stream that broadcasts use |
| `Data` | `local_storage.dfy` | `chat.data.LocalStorage`, and the `USER_KEY` channel attribute as a map from connection to user (`UserAttribute`) |
| `Service` | `chat_service.dfy` | `chat.service.ChatService` |
| `Handler` | `chat_handler.dfy` | `chat.handler.ChatHandler.channelRead0` and `channelInactive` |

The invariants:

- **`LocalStorage.Valid`**:
  - every registered room is within its bounds;
  - registered rooms have distinct names;
  - a mapped user is a stored user and is mapped to a registered room;
  - a member of a registered room is mapped to that room, so a user sits in
    at most one room (`Data.OneRoomEach`).
- **`Service.Wired`**: `Valid`, plus:
  - stored names are distinct ignoring case;
  - every bound connection is bound to a stored user.

  Every handler and both handler entry points keep `Wired`.

A user that `LocalStorage` stores is compared by equals, but the model
compares users by object identity. `Data.StoredEqualsIsIdentity` shows that
for stored users the two agree, because names are distinct ignoring case.
So the Java `HashSet`/`ConcurrentHashMap` lookups of a stored user find
exactly that user.

Source behaviours that the contracts state as the code has them:

- **Room capacity is hard-coded to 10.** `addUser` does not use the
  constructor argument; that argument bounds only the history.
- **A full room drops a joining user from their room.** `joinChannel` to a
  full room still removes the user from every room first. It keeps their
  mapping.
- **Lazy rejoin.** `getCurrentChatChannel` re-admits a mapped user who is
  not a member, when the room has space. `handleLeave`, `logout`,
  `sendMessage` and a successful `/login` therefore may change membership
  before they do anything else.
- **`createUser` does not log out the previous identity.** On connection
  `c`, the previously bound identity keeps `c` as one of its connections. A
  connection held by k members of a room receives a broadcast k times,
  which is why the broadcast contracts count copies (`Holders`).
- **A chat message is the whole line.** It is the untrimmed line as
  received, command word included.
- **A login replies with the typed name.** The login line uses the name as
  typed, which may differ in case from the stored one.

## Model

| member | source | states |
|---|---|---|
| `UserModel.User.constructor` | Zeptolab-Chat-Assessment/src/main/java/chat/model/User.java:14-18 | the new user has the given name and password and no connections |
| `UserModel.User.Equals` | Zeptolab-Chat-Assessment/src/main/java/chat/model/User.java:28-35 | equal exactly when the lower-cased names agree and the passwords agree exactly; connections play no part |
| `UserModel.User.ToString` | Zeptolab-Chat-Assessment/src/main/java/chat/model/User.java:42-45 | the username |
| `UserModel.User.GetChannels` | Zeptolab-Chat-Assessment/src/main/java/chat/model/User.java:47-49 | the snapshot equals the current connection set |
| `UserModel.User.AddChannel` | Zeptolab-Chat-Assessment/src/main/java/chat/model/User.java:51-53 | exactly that connection is added |
| `UserModel.User.RemoveChannel` | Zeptolab-Chat-Assessment/src/main/java/chat/model/User.java:55-57 | exactly that connection is removed; removing an absent one changes nothing |
| `UserModel.EqualsIsEquivalence` | Zeptolab-Chat-Assessment/src/main/java/chat/model/User.java:28-35 | equals is reflexive, symmetric and transitive |
| `UserModel.User.HashCode` | Zeptolab-Chat-Assessment/src/main/java/chat/model/User.java:37-40 | computes the product of the lower-cased username's and the password's string hashes; the contract states 0 when either string is empty |
| `UserModel.EqualUsersHashAlike` | Zeptolab-Chat-Assessment/src/main/java/chat/model/User.java:37-40 | equal users have equal hash codes |
| `UserModel.EqualsIgnoresCase` | Zeptolab-Chat-Assessment/src/main/java/chat/model/User.java:28-40 | names equal ignoring case plus the same password give equal users with equal hashes, whatever their connections |
| `JavaText.EqualsIgnoreCase` | Zeptolab-Chat-Assessment/src/main/java/chat/model/User.java:31 | `equalsIgnoreCase` holds for equal strings and only for strings of equal length |
| `JavaText.Lower` | Zeptolab-Chat-Assessment/src/main/java/chat/model/User.java:39 | `toLowerCase` keeps the length and lower-cases each character in place |
| `JavaText.EqualsIgnoreCaseIsLower` | Zeptolab-Chat-Assessment/src/main/java/chat/model/User.java:31-39 | `equalsIgnoreCase` holds exactly when the lower-cased strings are equal, which ties `equals` to `hashCode` |
| `ChannelModel.ChatChannel.constructor` | Zeptolab-Chat-Assessment/src/main/java/chat/model/ChatChannel.java:12-17 | a new room has the given name and history bound, no members and no history |
| `ChannelModel.ChatChannel.GetUsers` | Zeptolab-Chat-Assessment/src/main/java/chat/model/ChatChannel.java:19-21 | the current members |
| `ChannelModel.Admitted` | Zeptolab-Chat-Assessment/src/main/java/chat/model/ChatChannel.java:23-28 | an admitted user grows the membership by exactly one; otherwise it is unchanged; the cap is never passed |
| `ChannelModel.ChatChannel.AddUser` | Zeptolab-Chat-Assessment/src/main/java/chat/model/ChatChannel.java:23-28 | returns true exactly when the room has fewer than 10 members and the user is not one; the membership is then old plus that user; a full room is unchanged |
| `ChannelModel.CapacityNeverExceeded` | Zeptolab-Chat-Assessment/src/main/java/chat/model/ChatChannel.java:23-32 | any sequence of `addUser`/`removeUser` calls keeps a room at 10 members or fewer |
| `ChannelModel.ChatChannel.RemoveUser` | Zeptolab-Chat-Assessment/src/main/java/chat/model/ChatChannel.java:30-32 | only that user leaves; removing a non-member changes nothing |
| `ChannelModel.FanOut` | Zeptolab-Chat-Assessment/src/main/java/chat/model/ChatChannel.java:35-36 | every connection of every member receives the line once per member holding it, and nothing else is written |
| `ChannelModel.HolderHears` | Zeptolab-Chat-Assessment/src/main/java/chat/model/ChatChannel.java:35-36 | a member's own connections receive every broadcast to their room, their own messages included |
| `ChannelModel.ChatChannel.Write` | Zeptolab-Chat-Assessment/src/main/java/chat/model/ChatChannel.java:34-38 | fan-out of `"<user>: <message>"`, then `"<username>: <message>"` becomes the newest history entry; membership does not change |
| `ChannelModel.Newest` | Zeptolab-Chat-Assessment/src/main/java/chat/model/ChatChannel.java:40-45 | the newest n entries, oldest first: a suffix of length min(n, size) |
| `ChannelModel.ChatChannel.AddMessage` | Zeptolab-Chat-Assessment/src/main/java/chat/model/ChatChannel.java:40-45 | the history becomes the newest `maxMessageCount` entries of the old history plus the message, oldest evicted first |
| `ChannelModel.NewestOfNewest` | Zeptolab-Chat-Assessment/src/main/java/chat/model/ChatChannel.java:40-45 | evicting early does not change which entries end up newest |
| `ChannelModel.HistoryKeepsNewest` | Zeptolab-Chat-Assessment/src/main/java/chat/model/ChatChannel.java:40-45 | after any number of `addMessage` calls the history is exactly the newest entries of all messages, in order |
| `ChannelModel.LastMessagesKept` | Zeptolab-Chat-Assessment/src/main/java/chat/model/ChatChannel.java:40-45 | after at least n messages on an empty history, the history is the last n of them |
| `ChannelModel.ChatChannel.GetName` | Zeptolab-Chat-Assessment/src/main/java/chat/model/ChatChannel.java:47-49 | `getName` and `toString` are the room's name |
| `ChannelModel.ChatChannel.GetMessages` | Zeptolab-Chat-Assessment/src/main/java/chat/model/ChatChannel.java:51-53 | the history, oldest first |
| `Transport.Outbox.WriteAndFlush` | Zeptolab-Chat-Assessment/src/main/java/chat/service/ChatService.java:22 | the line is appended to that connection's output only |
| `Transport.Outbox.WriteEach` | Zeptolab-Chat-Assessment/src/main/java/chat/model/ChatChannel.java:35-36 | each connection of a set receives the line once, and no other connection receives anything |
| `Transport.Outbox.Close` | Zeptolab-Chat-Assessment/src/main/java/chat/service/ChatService.java:102 | the connection is marked closed and what was written stays |
| `Data.UserAttribute.constructor` | Zeptolab-Chat-Assessment/src/main/java/chat/data/LocalStorage.java:18 | no connection is bound yet |
| `Data.UserAttribute.Set` | Zeptolab-Chat-Assessment/src/main/java/chat/data/LocalStorage.java:44 | the connection is bound to the user and no other binding changes |
| `Data.LocalStorage.constructor` | Zeptolab-Chat-Assessment/src/main/java/chat/data/LocalStorage.java:14-16 | the directory starts empty and satisfies its invariant |
| `Data.LocalStorage.GetChatChannels` | Zeptolab-Chat-Assessment/src/main/java/chat/data/LocalStorage.java:20-23 | the registered rooms |
| `Data.LocalStorage.LoginUser` | Zeptolab-Chat-Assessment/src/main/java/chat/data/LocalStorage.java:25-28 | the user gains exactly that connection |
| `Data.LocalStorage.LogoutUser` | Zeptolab-Chat-Assessment/src/main/java/chat/data/LocalStorage.java:30-39 | only that connection is removed; the user leaves the mapped room exactly when no connection remains; the mapping is never erased; a null user changes nothing; the invariant is kept |
| `Data.LocalStorage.CreateUser` | Zeptolab-Chat-Assessment/src/main/java/chat/data/LocalStorage.java:41-49 | a fresh user with that name, that password and only the creating connection is bound to it and appended; lookup by name finds the earlier match, or the new user when there was none; distinct names stay distinct |
| `Data.FirstNamed` | Zeptolab-Chat-Assessment/src/main/java/chat/data/LocalStorage.java:51 | the position of the first user named the query ignoring case, no earlier one matching |
| `Data.LocalStorage.GetUserByName` | Zeptolab-Chat-Assessment/src/main/java/chat/data/LocalStorage.java:50-52 | null exactly when no stored name matches ignoring case; otherwise a stored user whose name matches |
| `Data.FirstNamedAppend` | Zeptolab-Chat-Assessment/src/main/java/chat/data/LocalStorage.java:47-51 | appending a user moves the first match by name only when there was no match before |
| `Data.AppendKeepsNamesDistinct` | Zeptolab-Chat-Assessment/src/main/java/chat/service/ChatService.java:35-48 | a user created only after the name lookup failed keeps stored names distinct ignoring case |
| `Data.StoredEqualsIsIdentity` | Zeptolab-Chat-Assessment/src/main/java/chat/data/LocalStorage.java:14-16 | for stored users `equals` is object identity, so the user-keyed sets and maps behave as identity lookups |
| `Data.LocalStorage.GetUserList` | Zeptolab-Chat-Assessment/src/main/java/chat/data/LocalStorage.java:54-63 | the members of the mapped room, or the empty set for an unmapped user, with no rejoin |
| `Data.LocalStorage.GetCurrentChatChannel` | Zeptolab-Chat-Assessment/src/main/java/chat/data/LocalStorage.java:65-69 | returns the mapped room exactly when the user is mapped and is a member or the room has space, and the user is then a member; otherwise null with that room unchanged |
| `Data.LocalStorage.AnyChannelContainsUser` | Zeptolab-Chat-Assessment/src/main/java/chat/data/LocalStorage.java:71-74 | true exactly when the user has a mapping entry, whether or not they are a member |
| `Data.DropFromRooms` | Zeptolab-Chat-Assessment/src/main/java/chat/data/LocalStorage.java:78-85 | the loop leaves every room of the set without that user and with its other members |
| `Data.LocalStorage.RemoveUserFromChannels` | Zeptolab-Chat-Assessment/src/main/java/chat/data/LocalStorage.java:76-86 | the user is a member of no registered room; other members, the registry and the mapping are untouched |
| `Data.LocalStorage.RemoveChannelFromUser` | Zeptolab-Chat-Assessment/src/main/java/chat/data/LocalStorage.java:88-91 | erases only that user's entry, and keeps the invariant when the user is in no room |
| `Data.LocalStorage.AddChatChannelToUser` | Zeptolab-Chat-Assessment/src/main/java/chat/data/LocalStorage.java:93-96 | sets only that user's entry |
| `Data.LocalStorage.AddChatChannel` | Zeptolab-Chat-Assessment/src/main/java/chat/data/LocalStorage.java:98-101 | registers exactly that room |
| `Data.FirstHolding` | Zeptolab-Chat-Assessment/src/main/java/chat/data/LocalStorage.java:105 | the position of the first user holding the connection, no earlier one holding it |
| `Data.LocalStorage.GetUserByChannel` | Zeptolab-Chat-Assessment/src/main/java/chat/data/LocalStorage.java:103-106 | null exactly when no stored user holds the connection; otherwise a stored user holding it |
| `Data.OneRoomEach` | Zeptolab-Chat-Assessment/src/main/java/chat/service/ChatService.java:150-164 | a user is a member of at most one registered room, the one they are mapped to |
| `Service.LoginRequired` | Zeptolab-Chat-Assessment/src/main/java/chat/service/ChatService.java:173-179 | true exactly for a null user, after the login error; otherwise nothing is written |
| `Service.Lines` | Zeptolab-Chat-Assessment/src/main/java/chat/service/ChatService.java:158 | one line per entry, in order, each followed by the line separator |
| `Service.WriteLines` | Zeptolab-Chat-Assessment/src/main/java/chat/service/ChatService.java:156-159 | exactly those lines, in order, go to the calling connection and nowhere else |
| `Service.WriteJoined` | Zeptolab-Chat-Assessment/src/main/java/chat/service/ChatService.java:155-159 | the joined line, then every history entry in order |
| `Service.LeaveAll` | Zeptolab-Chat-Assessment/src/main/java/chat/service/ChatService.java:150-152 | after the guarded `removeUserFromChannels`, the user is in no registered room |
| `Service.Enter` | Zeptolab-Chat-Assessment/src/main/java/chat/service/ChatService.java:154 | `addUser` for a user in no room succeeds exactly when the room has space, and then the directory is ready to register it |
| `Service.Register` | Zeptolab-Chat-Assessment/src/main/java/chat/service/ChatService.java:161-164 | the room is registered if it was not, the user is mapped to it, and the invariant is restored |
| `Service.Admit` | Zeptolab-Chat-Assessment/src/main/java/chat/service/ChatService.java:154-167 | admitted exactly when the room had space; then the reply, the registration and the mapping; otherwise the capacity error with registry and mapping unchanged |
| `Service.JoinRoom` | Zeptolab-Chat-Assessment/src/main/java/chat/service/ChatService.java:150-167 | the user leaves every room first, then is admitted exactly when the room has space without them, with the reply and state that `Joined` lists |
| `Service.JoinChannel` | Zeptolab-Chat-Assessment/src/main/java/chat/service/ChatService.java:146-168 | a null room changes nothing and writes nothing; otherwise the join of that room |
| `Service.FindChannel` | Zeptolab-Chat-Assessment/src/main/java/chat/service/ChatService.java:64-66 | null exactly when no registered room has the name; otherwise a registered room with that name |
| `Service.OpenRoom` | Zeptolab-Chat-Assessment/src/main/java/chat/service/ChatService.java:69-71 | a fresh room of history 10 is registered with the user as its only member and the user mapped to it; every other room has lost the user; the reply is the joined line |
| `Service.CreateAndJoin` | Zeptolab-Chat-Assessment/src/main/java/chat/service/ChatService.java:67-71 | the creation line comes before the join of the fresh room |
| `Service.HandleJoin` | Zeptolab-Chat-Assessment/src/main/java/chat/service/ChatService.java:58-73 | no argument: the channel-name error and no change; otherwise the room with that name, which is an existing room exactly when one is registered (joined as `joinChannel` does), or a new room that is announced, registered and joined; no history of a registered room and no user's connections change |
| `Service.Depart` | Zeptolab-Chat-Assessment/src/main/java/chat/service/ChatService.java:82-84 | the current room is the mapped one; afterwards the user is in no room and unmapped |
| `Service.Vacate` | Zeptolab-Chat-Assessment/src/main/java/chat/service/ChatService.java:83-84 | the user is in no room, and only their mapping entry is erased |
| `Service.Leave` | Zeptolab-Chat-Assessment/src/main/java/chat/service/ChatService.java:82-86 | the user is in no room and unmapped, and the remaining members' connections get the departure line, once per member holding them |
| `Service.HandleLeave` | Zeptolab-Chat-Assessment/src/main/java/chat/service/ChatService.java:78-87 | a null user gets the login error and nothing changes; otherwise the user has left their current room as `Leave` states |
| `Service.Withdraw` | Zeptolab-Chat-Assessment/src/main/java/chat/service/ChatService.java:93-96 | the connection is gone from the user; the user leaves their room exactly when it was their last connection, and is otherwise still a member (re-admitted if needed) |
| `Service.SignOff` | Zeptolab-Chat-Assessment/src/main/java/chat/service/ChatService.java:97-102 | the departure line goes to the members exactly when the user is no longer one, and then the connection is closed |
| `Service.Logout` | Zeptolab-Chat-Assessment/src/main/java/chat/service/ChatService.java:92-103 | on the last connection the user leaves the room and the remaining members are told; otherwise they stay; registry and mapping are kept; no other user's connections change; the connection is closed |
| `Service.Enumerate` | Zeptolab-Chat-Assessment/src/main/java/chat/service/ChatService.java:110 | the iteration of a set lists every element exactly once |
| `Service.ListChannels` | Zeptolab-Chat-Assessment/src/main/java/chat/service/ChatService.java:108-113 | one line per registered room, its name, in some enumeration of the registry (the corrected line, see Findings) |
| `Service.ListLineAsWritten` | Zeptolab-Chat-Assessment/src/main/java/chat/service/ChatService.java:111 | the line as written equals the intended one for every name without `%` |
| `Service.ListLineAsWrittenBreaks` | Zeptolab-Chat-Assessment/src/main/java/chat/service/ChatService.java:111 | room "100%" is listed as "100%s" with no line break, and room "%d" makes the format throw |
| `Service.ListUsers` | Zeptolab-Chat-Assessment/src/main/java/chat/service/ChatService.java:118-124 | a null user gets the login error; otherwise one line per member of the mapped room, in some enumeration of the membership |
| `Service.Broadcast` | Zeptolab-Chat-Assessment/src/main/java/chat/service/ChatService.java:135 | `write` on a registered room keeps the directory invariant, fans out the chat line and records the history entry |
| `Service.Post` | Zeptolab-Chat-Assessment/src/main/java/chat/service/ChatService.java:133-138 | with a current room, the user is a member and the message goes to it; without one, the not-joined reply and every room unchanged; every other room keeps its members and history |
| `Service.SendMessage` | Zeptolab-Chat-Assessment/src/main/java/chat/service/ChatService.java:129-139 | a null user gets the login error; otherwise the message goes to the current room as `Post` states; no other room's members or history change |
| `Service.Classify` | Zeptolab-Chat-Assessment/src/main/java/chat/service/ChatService.java:20-46 | no argument; not exactly two words; a name no user has; a stored user with another password; the stored user with that password; each branch ties to the split of the argument |
| `Service.ClassifyTwoWords` | Zeptolab-Chat-Assessment/src/main/java/chat/service/ChatService.java:26-37 | two whitespace-separated words ask for that account with that password: a sign-up, a login or a refusal |
| `Service.Release` | Zeptolab-Chat-Assessment/src/main/java/chat/service/ChatService.java:39 | the previously bound identity loses the connection and no other stored user's connections change, and a room that was open to the user stays open |
| `Service.Bind` | Zeptolab-Chat-Assessment/src/main/java/chat/service/ChatService.java:40-41 | the connection is bound to the user and is one of their connections; no other stored user's connections change |
| `Service.Rebind` | Zeptolab-Chat-Assessment/src/main/java/chat/service/ChatService.java:38-41 | the connection moves from the previous identity to the user, no third user's connections change, and a current room of the user survives |
| `Service.Reseat` | Zeptolab-Chat-Assessment/src/main/java/chat/service/ChatService.java:146-164 | `joinChannel` for a member of their own mapped room changes no membership, registry or mapping, and replies with the joined line and history |
| `Service.Rejoin` | Zeptolab-Chat-Assessment/src/main/java/chat/service/ChatService.java:43 | afterwards the user is seated in their mapped room exactly when they had a current room, with the join reply; registry and mapping unchanged |
| `Service.Greet` | Zeptolab-Chat-Assessment/src/main/java/chat/service/ChatService.java:42-43 | the login line with the typed name, then the join reply when seated; no user's connections change |
| `Service.Accept` | Zeptolab-Chat-Assessment/src/main/java/chat/service/ChatService.java:36-43 | the connection moves to the user; no other user's connections change; users, registry and mapping stay; a user with a current room ends up seated; the reply is the login line, then the join reply when seated |
| `Service.SignUp` | Zeptolab-Chat-Assessment/src/main/java/chat/service/ChatService.java:47-49 | a fresh user with that name and password, bound to the connection and found by name from then on; the other users' connections and the rooms unchanged; the welcome line |
| `Service.HandleLogin` | Zeptolab-Chat-Assessment/src/main/java/chat/service/ChatService.java:20-51 | the three refusals change nothing and send their error line; a new name signs up; a known name with its password logs in as `Accept` states; in no case does a third user's connection set change |
| `JavaText.Trim` | Zeptolab-Chat-Assessment/src/main/java/chat/handler/ChatHandler.java:22 | the result neither starts nor ends with a character up to U+0020 |
| `JavaText.TrimLeft` | Zeptolab-Chat-Assessment/src/main/java/chat/handler/ChatHandler.java:22 | a suffix of the text, and every dropped character is at most U+0020 |
| `JavaText.TrimRight` | Zeptolab-Chat-Assessment/src/main/java/chat/handler/ChatHandler.java:22 | a prefix of the text, and every dropped character is at most U+0020 |
| `JavaText.SplitOnce` | Zeptolab-Chat-Assessment/src/main/java/chat/handler/ChatHandler.java:22-24 | `split("\\s+", 2)`: a word without whitespace, and a rest exactly when the text has whitespace; word, whitespace run and rest put back together are the text |
| `JavaText.SplitOnceRoundTrip` | Zeptolab-Chat-Assessment/src/main/java/chat/handler/ChatHandler.java:22-24 | a word, a whitespace run and a rest split back into that word and that rest |
| `JavaText.Split` | Zeptolab-Chat-Assessment/src/main/java/chat/service/ChatService.java:26 | `split("\\s+")`: no piece has whitespace, and a text without whitespace is its only piece |
| `JavaText.Pieces` | Zeptolab-Chat-Assessment/src/main/java/chat/service/ChatService.java:26 | the pieces between whitespace runs, none containing whitespace |
| `JavaText.DropTrailingEmpty` | Zeptolab-Chat-Assessment/src/main/java/chat/service/ChatService.java:26 | a prefix of the pieces that does not end in an empty piece |
| `JavaText.SplitTwoWords` | Zeptolab-Chat-Assessment/src/main/java/chat/service/ChatService.java:26-27 | two words separated by whitespace split into exactly those two words |
| `JavaText.Format` | Zeptolab-Chat-Assessment/src/main/java/chat/service/ChatService.java:111 | `String.format` on `%%`, `%n` and `%s`; a format without `%` renders as itself |
| `JavaText.FormatPlain` | Zeptolab-Chat-Assessment/src/main/java/chat/service/ChatService.java:111 | a format with no `%` before a final `%s` renders as its text followed by the argument |
| `Handler.Keyword` | Zeptolab-Chat-Assessment/src/main/java/chat/handler/ChatHandler.java:28-33 | each command word starts with `/` and has no whitespace, so only a trimmed first word can be one |
| `Handler.Route` | Zeptolab-Chat-Assessment/src/main/java/chat/handler/ChatHandler.java:27-35 | a word routes to a handler only when it is that handler's command word; every other word is a chat message |
| `Handler.Tokenize` | Zeptolab-Chat-Assessment/src/main/java/chat/handler/ChatHandler.java:22-24 | the command word has no whitespace; there is an argument exactly when the trimmed line has inner whitespace; without one the command is the trimmed line; an argument is never empty, starts after the whitespace and ends above U+0020 |
| `Handler.ArgumentShape` | Zeptolab-Chat-Assessment/src/main/java/chat/handler/ChatHandler.java:22-24 | on a trimmed line the argument runs to the end of the line, so it is not empty |
| `Handler.TokenizeRoundTrip` | Zeptolab-Chat-Assessment/src/main/java/chat/handler/ChatHandler.java:22-24 | padding, a word, whitespace and an argument tokenize back into that word and argument, inner whitespace kept |
| `Handler.TokenizeWord` | Zeptolab-Chat-Assessment/src/main/java/chat/handler/ChatHandler.java:22-24 | a padded lone word tokenizes into that word and no argument |
| `Handler.TrimPadded` | Zeptolab-Chat-Assessment/src/main/java/chat/handler/ChatHandler.java:22 | `trim` removes exactly the padding around a text that starts and ends above U+0020 |
| `Handler.TrimLeftPadded` | Zeptolab-Chat-Assessment/src/main/java/chat/handler/ChatHandler.java:22 | the left half of `trim` removes exactly the leading padding |
| `Handler.TrimRightPadded` | Zeptolab-Chat-Assessment/src/main/java/chat/handler/ChatHandler.java:22 | the right half of `trim` removes exactly the trailing padding |
| `Handler.ChannelRead0` | Zeptolab-Chat-Assessment/src/main/java/chat/handler/ChatHandler.java:20-36 | the route is the one the command word selects; only `/login` rebinds; the selected handler has done what its own contract states with the argument (a chat message with the whole line); `/list` (the corrected line, see Findings), `/users` and an undeliverable message change nothing but the reply; only a chat message touches a history, and only its room's history and members; only `/login` and `/disconnect` change connection sets, and only those their handlers name; the invariant is kept |
| `Handler.OnLogin` | Zeptolab-Chat-Assessment/src/main/java/chat/handler/ChatHandler.java:28 | `/login` runs `handleLogin` with the argument; no history changes |
| `Handler.OnRoomCommand` | Zeptolab-Chat-Assessment/src/main/java/chat/handler/ChatHandler.java:29-31 | `/join`, `/leave` and `/disconnect` run their handler with the bound user; no binding and no history changes, and only `/disconnect` changes a connection set, that of the bound user |
| `Handler.OnJoin` | Zeptolab-Chat-Assessment/src/main/java/chat/handler/ChatHandler.java:29 | `/join` runs `handleJoin` with the bound user and the argument |
| `Handler.OnLeave` | Zeptolab-Chat-Assessment/src/main/java/chat/handler/ChatHandler.java:30 | `/leave` runs `handleLeave` with the bound user |
| `Handler.OnDisconnect` | Zeptolab-Chat-Assessment/src/main/java/chat/handler/ChatHandler.java:31 | `/disconnect` runs `logout` with the bound user |
| `Handler.OnOtherCommand` | Zeptolab-Chat-Assessment/src/main/java/chat/handler/ChatHandler.java:32-34 | `/list`, `/users` and chat messages run their handler; no binding or connection set changes, and a chat message changes no room but its own |
| `Handler.OnList` | Zeptolab-Chat-Assessment/src/main/java/chat/handler/ChatHandler.java:32 | `/list` lists the rooms (the corrected line, see Findings) and changes nothing else |
| `Handler.OnUsers` | Zeptolab-Chat-Assessment/src/main/java/chat/handler/ChatHandler.java:33 | `/users` lists the members of the bound user's room and changes nothing else |
| `Handler.OnSay` | Zeptolab-Chat-Assessment/src/main/java/chat/handler/ChatHandler.java:34 | any other line goes, whole and untrimmed, to `sendMessage` with the bound user |
| `Handler.ChannelInactive` | Zeptolab-Chat-Assessment/src/main/java/chat/handler/ChatHandler.java:38-41 | the user that `getUserByChannel` finds holds the connection and is logged out from it as `Logout` states, so no other user's connections change |

## Left out

- Netty itself is not part of this model. Connections are opaque ids, output
  is a per-connection sequence of lines, and `ctx.writeAndFlush` and
  `ctx.channel().writeAndFlush` are the same append. The bootstrap
  (`ChatServer.java`) and the `Storage` interface beyond what
  `LocalStorage` implements are not part of this model.
- Concurrency is not modelled. The model is sequential: every
  `synchronized` method and block runs atomically, one command at a time.
- Hash-set iteration order is not modelled. `/list`, `/users`,
  `removeUserFromChannels` and the fan-out iterate sets in an order the
  model leaves open. The listing contracts say the output is some
  enumeration of the set: each element exactly once.
- Crashes are preconditions, not a modelled error path. A crash occurs in
  these cases:
  - `logoutUser` on the last connection of an unmapped user;
  - `/join <name>` before login, since `containsKey(null)` throws;
  - `/leave` without a current room;
  - `/disconnect` before login or without a current room;
  - `channelInactive` for a connection nobody holds or for a user without
    a current room. This includes the close event that follows
    `/disconnect`, which runs `logout` with a null user.

  `Handler.Handles`, `Handler.Admissible` and `Data.LocalStorage.CanLogout`
  collect these preconditions.
- `UserModel.User.HashCode`: the 32-bit wrap-around of `String.hashCode`
  and of the product is not modelled. Only the equality of hash codes
  matters to the core.
- `JavaText.Lower`: case mapping covers ASCII letters only.
  `equalsIgnoreCase` and `toLowerCase` outside ASCII are not modelled.
- `JavaText.Format`: only `%%`, `%n` and `%s` are modelled. Every other
  conversion gives no result, whether Java would throw or would format it
  (`%b`, widths, flags).
- `System.lineSeparator()` is taken as `"\n"`.
- `Service.Accept` (and through it `Service.HandleLogin` and
  `Handler.ChannelRead0`): the contract does not state how room memberships
  change. These changes are not stated:
  - the previous identity leaving its room when the connection was its
    last one;
  - the user being re-admitted to their own room.

  The contract states the connections, the bindings, the registry, the
  mapping, that a current room ends up seated, and the reply.
- `Transport.Outbox.WriteAndFlush`: a write to a closed connection is
  appended like any other, where Netty would drop it. This matters only
  when a stored user still holds a closed connection. That can happen after
  a signup on a connection another identity holds, since `createUser` does
  not log that identity out.
- The unit and integration tests are not modelled. They pin the same
  reply strings that the model's constants hold.

## Findings

| source | as written | input that shows it | evidently intended | confidence | as-written member | corrected member |
|---|---|---|---|---|---|---|
| Zeptolab-Chat-Assessment/src/main/java/chat/service/ChatService.java:111 | the room name is concatenated into the format string of `String.format(channel + "%s", LINE_SEPARATOR)` | `/join 100%` then `/list`: the line is `100%s` with no line separator; `/join %d` then `/list`: `String.format` throws | each room name followed by the line separator, as `String.format("%s%s", channel, LINE_SEPARATOR)` would write it | not executed | `Service.ListLineAsWritten`, `Service.ListLineAsWrittenBreaks` | `Service.ListChannels` |
