/**
 * chat.model.ChatChannel: a named room whose membership is capped at ten
 * users, whose history keeps only the newest messages, and which broadcasts
 * a message to every connection of every member.
 */
module ChannelModel {
  import opened Transport
  import opened UserModel

  /** The membership limit that addUser hard-codes (it does not use the constructor argument). */
  const Capacity: nat := 10

  /** What addUser returns: the room is not full and `u` is not yet a member. */
  predicate Admits(members: set<User>, u: User) {
    |members| < Capacity && u !in members
  }

  /** The membership after addUser(u): `u` is added exactly when it is admitted. */
  function Admitted(members: set<User>, u: User): (r: set<User>)
    ensures Admits(members, u) ==> r == members + {u} && |r| == |members| + 1
    ensures !Admits(members, u) ==> r == members
    ensures |members| <= Capacity ==> |r| <= Capacity
  {
    if |members| < Capacity then members + {u} else members
  }

  /** One call of addUser or removeUser. */
  datatype MembershipOp = Add(user: User) | Remove(user: User)

  /** The membership after the calls `ops`, in order. */
  function Replay(members: set<User>, ops: seq<MembershipOp>): set<User>
    decreases |ops|
  {
    if ops == [] then members
    else
      var next := match ops[0]
        case Add(u) => Admitted(members, u)
        case Remove(u) => members - {u};
      Replay(next, ops[1..])
  }

  /** No sequence of addUser and removeUser calls takes a room past its capacity. */
  lemma {:induction false} CapacityNeverExceeded(members: set<User>, ops: seq<MembershipOp>)
    requires |members| <= Capacity
    ensures |Replay(members, ops)| <= Capacity
    decreases |ops|
  {
    if ops != [] {
      var next := match ops[0]
        case Add(u) => Admitted(members, u)
        case Remove(u) => members - {u};
      if ops[0].Remove? {
        SubsetSize(next, members);
      }
      CapacityNeverExceeded(next, ops[1..]);
    }
  }

  lemma SubsetSize(a: set<User>, b: set<User>)
    requires a <= b
    ensures |a| <= |b|
  {
    assert b == a + (b - a);
  }

  /** How many entries the history keeps: maxMessageCount, and none when it is negative. */
  function Bound(maxMessageCount: int): nat {
    if maxMessageCount < 0 then 0 else maxMessageCount
  }

  /** The newest `n` entries of `h`, oldest first. */
  function Newest(h: seq<string>, n: nat): (w: seq<string>)
    ensures |w| == if |h| < n then |h| else n
    ensures w == h[|h| - |w|..]
  {
    if |h| <= n then h else h[|h| - n..]
  }

  /** The history after addMessage(m) for every m of `ms` in turn, starting from `h`. */
  function AfterMessages(h: seq<string>, ms: seq<string>, n: nat): seq<string>
    decreases |ms|
  {
    if ms == [] then h else AfterMessages(Newest(h + [ms[0]], n), ms[1..], n)
  }

  /** Trimming the history early does not change what the newest `n` entries are. */
  lemma NewestOfNewest(s: seq<string>, t: seq<string>, n: nat)
    ensures Newest(Newest(s, n) + t, n) == Newest(s + t, n)
  {
    var w := Newest(s, n);
    var a := Newest(w + t, n);
    var b := Newest(s + t, n);
    assert |a| == |b|;
    forall k | 0 <= k < |a| ensures a[k] == b[k] {
      var i := |w + t| - |a| + k;
      var j := |s + t| - |b| + k;
      assert a[k] == (w + t)[i];
      assert b[k] == (s + t)[j];
      if i >= |w| {
        assert (w + t)[i] == t[i - |w|];
        assert (s + t)[j] == t[j - |s|];
      } else {
        assert (w + t)[i] == w[i] == s[|s| - |w| + i];
        assert (s + t)[j] == s[j];
      }
    }
  }

  /**
   * However many messages are added, the history is exactly the newest
   * `n` of all of them, in the order they were added.
   */
  lemma {:induction false} HistoryKeepsNewest(h: seq<string>, ms: seq<string>, n: nat)
    requires |h| <= n
    ensures AfterMessages(h, ms, n) == Newest(h + ms, n)
    decreases |ms|
  {
    if ms == [] {
      assert h + ms == h;
    } else {
      var h' := Newest(h + [ms[0]], n);
      HistoryKeepsNewest(h', ms[1..], n);
      NewestOfNewest(h + [ms[0]], ms[1..], n);
      FirstThenRest(h, ms);
    }
  }

  lemma FirstThenRest(h: seq<string>, ms: seq<string>)
    requires ms != []
    ensures h + [ms[0]] + ms[1..] == h + ms
  {
    assert [ms[0]] + ms[1..] == ms;
  }

  /** After at least `n` messages on an empty history, the history is the last `n` of them. */
  lemma LastMessagesKept(ms: seq<string>, n: nat)
    requires |ms| >= n
    ensures AfterMessages([], ms, n) == ms[|ms| - n..]
    ensures |AfterMessages([], ms, n)| == n
  {
    HistoryKeepsNewest([], ms, n);
    assert [] + ms == ms;
  }

  /** The members that hold connection `c`. */
  function HoldersOf(members: set<User>, c: Conn): (hs: set<User>)
    reads members
    ensures hs <= members
    ensures forall u :: u in members ==> (u in hs <==> c in u.channels)
  {
    set u | u in members && c in u.channels
  }

  /** How many members hold connection `c`: how many copies of a broadcast line `c` receives. */
  function Holders(members: set<User>, c: Conn): nat
    reads members
  {
    |HoldersOf(members, c)|
  }

  /** A member holding `c` makes `c` receive a broadcast at least once: the sender hears their own message. */
  lemma HolderHears(members: set<User>, u: User, c: Conn)
    requires u in members && c in u.channels
    ensures Holders(members, c) >= 1
  {
    assert u in HoldersOf(members, c);
  }

  lemma HoldersAdd(done: set<User>, u: User, c: Conn)
    requires u !in done
    ensures Holders(done + {u}, c) == Holders(done, c) + (if c in u.channels then 1 else 0)
  {
    var before := HoldersOf(done, c);
    var after := HoldersOf(done + {u}, c);
    if c in u.channels {
      assert after == before + {u};
    } else {
      assert after == before;
    }
  }

  lemma RepeatStep(start: seq<string>, before: seq<string>, now: seq<string>, line: string, k: nat, b: bool)
    requires before == start + Repeat(line, k)
    requires now == before + (if b then [line] else [])
    ensures now == start + Repeat(line, k + (if b then 1 else 0))
  {
    if b {
      assert Repeat(line, k + 1) == Repeat(line, k) + [line];
      assert start + Repeat(line, k) + [line] == start + (Repeat(line, k) + [line]);
    } else {
      assert now == before;
    }
  }

  /** How many of `us` hold `c`, by the connection sets recorded in `chans`. */
  function Counted(us: set<User>, chans: map<User, set<Conn>>, c: Conn): nat {
    |CountedOf(us, chans, c)|
  }

  function CountedOf(us: set<User>, chans: map<User, set<Conn>>, c: Conn): (hs: set<User>)
    ensures hs <= us
    ensures forall u :: u in us ==> (u in hs <==> u in chans && c in chans[u])
  {
    set u | u in us && u in chans && c in chans[u]
  }

  lemma CountedAdd(done: set<User>, u: User, chans: map<User, set<Conn>>, c: Conn)
    requires u !in done && u in chans
    ensures Counted(done + {u}, chans, c) == Counted(done, chans, c) + (if c in chans[u] then 1 else 0)
  {
    var before := CountedOf(done, chans, c);
    var after := CountedOf(done + {u}, chans, c);
    if c in chans[u] {
      assert after == before + {u};
    } else {
      assert after == before;
    }
  }

  lemma CountedIsHolders(members: set<User>, chans: map<User, set<Conn>>, c: Conn)
    requires forall u :: u in members ==> u in chans && chans[u] == u.channels
    ensures Counted(members, chans, c) == Holders(members, c)
  {
    var counted := CountedOf(members, chans, c);
    var holders := HoldersOf(members, c);
    forall u | u in members ensures u in counted <==> u in holders {
    }
    assert counted == holders;
  }

  /** One member's share of a broadcast: every connection of `u` receives `line` once more. */
  method FanOutStep(u: User, line: string, out: Outbox, ghost start: map<Conn, seq<string>>,
                    ghost done: set<User>, ghost chans: map<User, set<Conn>>)
    requires u !in done && u in chans && chans[u] == u.channels
    requires forall c :: out.Sent(c) == InitialSent(start, c) + Repeat(line, Counted(done, chans, c))
    modifies out
    ensures forall c :: out.Sent(c) == InitialSent(start, c) + Repeat(line, Counted(done + {u}, chans, c))
    ensures out.closed == old(out.closed)
  {
    out.WriteEach(u.GetChannels(), line);
    forall c ensures out.Sent(c) == InitialSent(start, c) + Repeat(line, Counted(done + {u}, chans, c)) {
      CountedAdd(done, u, chans, c);
      RepeatStep(InitialSent(start, c), old(out.Sent(c)), out.Sent(c), line, Counted(done, chans, c), c in chans[u]);
    }
  }

  /** What connection `c` had been sent, by the recorded output `start`. */
  function InitialSent(start: map<Conn, seq<string>>, c: Conn): seq<string> {
    if c in start then start[c] else []
  }

  /**
   * The stream users.flatMap(getChannels).forEach(writeAndFlush(line)):
   * every connection of every member receives `line`, once per member
   * holding it.
   */
  method FanOut(members: set<User>, line: string, out: Outbox)
    modifies out
    ensures forall c :: out.Sent(c) == old(out.Sent(c)) + Repeat(line, Holders(members, c))
    ensures out.closed == old(out.closed)
  {
    ghost var chans: map<User, set<Conn>> := map u | u in members :: u.channels;
    ghost var start := out.lines;
    var todo := members;
    ghost var done: set<User> := {};
    while todo != {}
      invariant todo + done == members && todo !! done
      invariant forall c :: out.Sent(c) == InitialSent(start, c) + Repeat(line, Counted(done, chans, c))
      invariant out.closed == old(out.closed)
      decreases |todo|
    {
      var u :| u in todo;
      FanOutStep(u, line, out, start, done, chans);
      todo := todo - {u};
      done := done + {u};
    }
    forall c ensures out.Sent(c) == old(out.Sent(c)) + Repeat(line, Holders(members, c)) {
      CountedIsHolders(members, chans, c);
    }
  }

  /** The line write sends for `message` from `user`: "<user>: <message>" and the line separator. */
  function ChatLine(user: User, message: string): string {
    user.ToString() + ": " + message + LineSeparator
  }

  class ChatChannel {
    const name: string
    const maxMessageCount: int
    var users: set<User>
    var messages: seq<string>

    /** The room invariant: within capacity, and the history within its bound. */
    ghost predicate Valid()
      reads this
    {
      |users| <= Capacity && |messages| <= Bound(maxMessageCount)
    }

    constructor (name: string, maxMessageCount: int)
      ensures this.name == name && this.maxMessageCount == maxMessageCount
      ensures users == {} && messages == []
      ensures Valid()
    {
      this.name := name;
      this.maxMessageCount := maxMessageCount;
      users := {};
      messages := [];
    }

    /** getUsers: the current members. */
    function GetUsers(): (us: set<User>)
      reads this
      ensures us == users
    {
      users
    }

    /** getMessages: the history, oldest first. */
    function GetMessages(): (ms: seq<string>)
      reads this
      ensures ms == messages
    {
      messages
    }

    /** getName and toString: the room's name. */
    function GetName(): (s: string)
      ensures s == name
    {
      name
    }

    /** addUser: admits `user` when the room has fewer than ten members and `user` is not one. */
    method AddUser(user: User) returns (added: bool)
      requires Valid()
      modifies this`users
      ensures Valid()
      ensures added == Admits(old(users), user)
      ensures users == Admitted(old(users), user)
    {
      if |users| < Capacity {
        added := user !in users;
        users := users + {user};
      } else {
        added := false;
      }
    }

    /** removeUser: `user` is no longer a member; a no-op for a non-member. */
    method RemoveUser(user: User)
      requires Valid()
      modifies this`users
      ensures Valid()
      ensures users == old(users) - {user}
    {
      SubsetSize(users - {user}, users);
      users := users - {user};
    }

    /**
     * addMessage: appends `message` and, when the history is then longer
     * than maxMessageCount, drops its oldest entry.
     */
    method AddMessage(message: string)
      requires Valid()
      modifies this`messages
      ensures Valid()
      ensures messages == Newest(old(messages) + [message], Bound(maxMessageCount))
    {
      messages := messages + [message];
      if |messages| > maxMessageCount {
        messages := messages[1..];
      }
    }

    /**
     * write: sends "<user>: <message>" to every connection of every member,
     * the sender's own included, then records "<username>: <message>" as the
     * newest history entry. Membership does not change.
     */
    method Write(user: User, message: string, out: Outbox)
      requires Valid()
      modifies this`messages, out
      ensures Valid()
      ensures forall c :: out.Sent(c) == old(out.Sent(c)) + Repeat(ChatLine(user, message), Holders(users, c))
      ensures messages == Newest(old(messages) + [user.username + ": " + message], Bound(maxMessageCount))
      ensures out.closed == old(out.closed)
    {
      FanOut(users, ChatLine(user, message), out);
      AddMessage(user.username + ": " + message);
    }
  }
}
