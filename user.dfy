/**
 * chat.model.User: an identity made of a username and a password, which
 * never change, and the set of live connections logged in as that identity.
 */
module UserModel {
  import opened JavaText
  import opened Transport

  class User {
    const username: string
    const password: string
    var channels: set<Conn>

    constructor (username: string, password: string)
      ensures this.username == username && this.password == password
      ensures channels == {}
    {
      this.username := username;
      this.password := password;
      channels := {};
    }

    /**
     * User.equals: the usernames agree ignoring case and the passwords agree
     * exactly; the connections play no part.
     */
    function Equals(other: User): (eq: bool)
      ensures eq <==> Lower(username) == Lower(other.username) && password == other.password
    {
      EqualsIgnoreCaseIsLower(username, other.username);
      EqualsIgnoreCase(username, other.username) && password == other.password
    }

    /** User.hashCode, built from the lower-cased username and the password only; an empty string hashes to 0, so either one empty gives 0. */
    function HashCode(): (h: int)
      ensures username == [] || password == [] ==> h == 0
    {
      StringHash(Lower(username)) * StringHash(password)
    }

    /** User.toString: the username. */
    function ToString(): (s: string)
      ensures s == username
    {
      username
    }

    /** User.getChannels: a snapshot of the live connections. */
    function GetChannels(): (cs: set<Conn>)
      reads this
      ensures cs == channels
    {
      channels
    }

    /** User.addChannel: one more live connection. */
    method AddChannel(c: Conn)
      modifies this`channels
      ensures channels == old(channels) + {c}
    {
      channels := channels + {c};
    }

    /** User.removeChannel: one connection fewer; a no-op when `c` is not live. */
    method RemoveChannel(c: Conn)
      modifies this`channels
      ensures channels == old(channels) - {c}
      ensures c !in old(channels) ==> channels == old(channels)
    {
      channels := channels - {c};
    }
  }

  /** equals is an equivalence: reflexive, symmetric and transitive. */
  lemma EqualsIsEquivalence(a: User, b: User, c: User)
    ensures a.Equals(a)
    ensures a.Equals(b) ==> b.Equals(a)
    ensures a.Equals(b) && b.Equals(c) ==> a.Equals(c)
  {
  }

  /** Equal users have equal hash codes, as HashSet and ConcurrentHashMap need. */
  lemma EqualUsersHashAlike(a: User, b: User)
    requires a.Equals(b)
    ensures a.HashCode() == b.HashCode()
  {
  }

  /** Users with the same name in any case and the same password are equal, whatever their connections. */
  lemma {:induction false} EqualsIgnoresCase(a: User, b: User)
    requires EqualsIgnoreCase(a.username, b.username) && a.password == b.password
    ensures a.Equals(b) && a.HashCode() == b.HashCode()
  {
    EqualsIgnoreCaseIsLower(a.username, b.username);
  }
}
