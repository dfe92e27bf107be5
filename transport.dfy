/**
 * The network as the chat core sees it: a connection is an opaque id, what
 * is written to a connection (writeAndFlush) is appended to that
 * connection's own sequence of lines, and closing a connection (ctx.close)
 * records it as closed.
 */
module Transport {

  /** A live client connection (a Netty Channel), known only by its id. */
  type Conn = nat

  /** System.lineSeparator(), taken as a fixed string. */
  const LineSeparator: string := "\n"

  /** `n` copies of `line`. */
  function Repeat(line: string, n: nat): (r: seq<string>)
    ensures |r| == n
    ensures forall k :: 0 <= k < n ==> r[k] == line
  {
    if n == 0 then [] else Repeat(line, n - 1) + [line]
  }

  /** The output of every connection, and which connections have been closed. */
  class Outbox {
    var lines: map<Conn, seq<string>>
    var closed: set<Conn>

    constructor ()
      ensures lines == map[] && closed == {}
    {
      lines := map[];
      closed := {};
    }

    /** Every line written to connection `c` so far, oldest first. */
    function Sent(c: Conn): seq<string>
      reads this
    {
      if c in lines then lines[c] else []
    }

    /** writeAndFlush(line) on connection `c`. */
    method WriteAndFlush(c: Conn, line: string)
      modifies this
      ensures lines == old(lines)[c := old(Sent(c)) + [line]]
      ensures forall d :: Sent(d) == if d == c then old(Sent(c)) + [line] else old(Sent(d))
      ensures closed == old(closed)
    {
      lines := lines[c := Sent(c) + [line]];
    }

    /** Writes `line` once on each connection of `cs`, in some order. */
    method WriteEach(cs: set<Conn>, line: string)
      modifies this
      ensures forall c :: Sent(c) == old(Sent(c)) + (if c in cs then [line] else [])
      ensures closed == old(closed)
    {
      var todo := cs;
      while todo != {}
        invariant todo <= cs
        invariant forall c :: Sent(c) == old(Sent(c)) + (if c in cs - todo then [line] else [])
        invariant closed == old(closed)
        decreases |todo|
      {
        var c :| c in todo;
        WriteAndFlush(c, line);
        todo := todo - {c};
      }
    }

    /** ctx.close() on connection `c`; what was written stays. */
    method Close(c: Conn)
      modifies this
      ensures closed == old(closed) + {c}
      ensures lines == old(lines)
    {
      closed := closed + {c};
    }
  }
}
