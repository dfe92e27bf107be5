/**
 * The parts of java.lang.String that the chat core relies on: lower-casing,
 * equalsIgnoreCase, trim, split on the regular expression `\s+` (with and
 * without a limit) and hashCode. Case mapping is restricted to ASCII letters
 * and hashCode is an unbounded integer (Java wraps it to 32 bits).
 */
module JavaText {

  /** A Java String that may be null. */
  datatype Option<+T> = None | Some(value: T)

  /** Character.toLowerCase on ASCII letters; every other character is unchanged. */
  function ToLower(c: char): char {
    if 'A' <= c <= 'Z' then (c as int + 32) as char else c
  }

  /** Character.toUpperCase on ASCII letters; every other character is unchanged. */
  function ToUpper(c: char): char {
    if 'a' <= c <= 'z' then (c as int - 32) as char else c
  }

  /** String.toLowerCase: every character lower-cased, in place. */
  function Lower(s: string): (r: string)
    ensures |r| == |s|
    ensures forall i :: 0 <= i < |s| ==> r[i] == ToLower(s[i])
  {
    if s == [] then [] else [ToLower(s[0])] + Lower(s[1..])
  }

  /** The per-character test of String.equalsIgnoreCase (String.regionMatches ignoring case). */
  predicate CharEqualsIgnoreCase(a: char, b: char) {
    a == b || ToUpper(a) == ToUpper(b) || ToLower(ToUpper(a)) == ToLower(ToUpper(b))
  }

  /** String.equalsIgnoreCase: same length and equal character by character, ignoring case. */
  predicate EqualsIgnoreCase(s: string, t: string): (r: bool)
    ensures s == t ==> r
    ensures r ==> |s| == |t|
  {
    |s| == |t| && forall i :: 0 <= i < |s| ==> CharEqualsIgnoreCase(s[i], t[i])
  }

  lemma CharEqualsIgnoreCaseIsLower(a: char, b: char)
    ensures CharEqualsIgnoreCase(a, b) <==> ToLower(a) == ToLower(b)
  {
  }

  /** Comparing ignoring case is comparing the lower-cased strings. */
  lemma EqualsIgnoreCaseIsLower(s: string, t: string)
    ensures EqualsIgnoreCase(s, t) <==> Lower(s) == Lower(t)
  {
    if EqualsIgnoreCase(s, t) {
      forall i | 0 <= i < |s| ensures Lower(s)[i] == Lower(t)[i] {
        CharEqualsIgnoreCaseIsLower(s[i], t[i]);
      }
    }
    if Lower(s) == Lower(t) {
      forall i | 0 <= i < |s| ensures CharEqualsIgnoreCase(s[i], t[i]) {
        assert Lower(s)[i] == Lower(t)[i];
        CharEqualsIgnoreCaseIsLower(s[i], t[i]);
      }
    }
  }

  /** String.hashCode, sum of c * 31^k over the characters, without the 32-bit wrap-around. */
  function StringHash(s: string): int {
    if s == [] then 0 else 31 * StringHash(s[..|s| - 1]) + s[|s| - 1] as int
  }

  /** A character of the regular-expression class `\s`: space, \t, \n, \x0B, \f or \r. */
  predicate IsSpace(c: char) {
    c == ' ' || 9 <= c as int <= 13
  }

  predicate NoSpace(s: string) {
    forall i :: 0 <= i < |s| ==> !IsSpace(s[i])
  }

  predicate AllSpace(s: string) {
    forall i :: 0 <= i < |s| ==> IsSpace(s[i])
  }

  /** String.trim from the left: drops the leading characters up to U+0020. */
  function TrimLeft(s: string): (r: string)
    ensures |r| <= |s| && r == s[|s| - |r|..]
    ensures r == [] || ' ' < r[0]
    ensures forall k :: 0 <= k < |s| - |r| ==> s[k] <= ' '
  {
    if s != [] && s[0] <= ' ' then TrimLeft(s[1..]) else s
  }

  /** String.trim from the right: drops the trailing characters up to U+0020. */
  function TrimRight(s: string): (r: string)
    ensures |r| <= |s| && r == s[..|r|]
    ensures r == [] || ' ' < r[|r| - 1]
    ensures forall k :: |r| <= k < |s| ==> s[k] <= ' '
  {
    if s != [] && s[|s| - 1] <= ' ' then TrimRight(s[..|s| - 1]) else s
  }

  /** String.trim: s without the characters up to U+0020 at either end. */
  function Trim(s: string): (r: string)
    ensures r == [] || (' ' < r[0] && ' ' < r[|r| - 1])
    ensures |r| <= |s|
  {
    TrimRight(TrimLeft(s))
  }

  /** Index of the first `\s` character of s, or |s| when there is none. */
  function FirstSpace(s: string): (i: nat)
    ensures i <= |s|
    ensures NoSpace(s[..i])
    ensures i < |s| ==> IsSpace(s[i])
  {
    if s == [] || IsSpace(s[0]) then 0 else 1 + FirstSpace(s[1..])
  }

  /** Length of the run of `\s` characters that s starts with (what `\s+` matches greedily). */
  function SpaceRun(s: string): (n: nat)
    ensures n <= |s|
    ensures AllSpace(s[..n])
    ensures n < |s| ==> !IsSpace(s[n])
  {
    if s != [] && IsSpace(s[0]) then 1 + SpaceRun(s[1..]) else 0
  }

  /**
   * s.split("\\s+", 2): the text before the first run of `\s` and, when
   * there is such a run, everything after it, further whitespace included.
   */
  function SplitOnce(s: string): (r: (string, Option<string>))
    ensures NoSpace(r.0)
    ensures r.1.None? <==> NoSpace(s)
    ensures r.1.None? ==> r.0 == s
    ensures r.1.Some? ==>
              var gap := |s| - |r.0| - |r.1.value|;
              && 0 < gap
              && s == r.0 + s[|r.0|..|r.0| + gap] + r.1.value
              && AllSpace(s[|r.0|..|r.0| + gap])
              && (r.1.value == [] || !IsSpace(r.1.value[0]))
  {
    var i := FirstSpace(s);
    if i == |s| then
      assert s[..i] == s;
      (s, None)
    else
      var n := SpaceRun(s[i..]);
      assert s[i..][..n] == s[i..i + n];
      assert s == s[..i] + s[i..i + n] + s[i + n..];
      (s[..i], Some(s[i + n..]))
  }

  /** Splitting a word, a run of whitespace and a rest gives back the word and the rest. */
  lemma {:induction false} SplitOnceRoundTrip(a: string, w: string, b: string)
    requires NoSpace(a) && w != [] && AllSpace(w)
    requires b == [] || !IsSpace(b[0])
    ensures SplitOnce(a + w + b) == (a, Some(b))
  {
    var s := a + w + b;
    FirstSpaceOf(a, w + b);
    assert s == a + (w + b);
    assert s[|a|..] == w + b;
    SpaceRunOf(w, b);
  }

  lemma {:induction false} FirstSpaceOf(a: string, t: string)
    requires NoSpace(a) && t != [] && IsSpace(t[0])
    ensures FirstSpace(a + t) == |a|
  {
    if a != [] {
      assert (a + t)[1..] == a[1..] + t;
      FirstSpaceOf(a[1..], t);
    } else {
      assert a + t == t;
    }
  }

  lemma {:induction false} SpaceRunOf(w: string, b: string)
    requires AllSpace(w)
    requires b == [] || !IsSpace(b[0])
    ensures SpaceRun(w + b) == |w|
  {
    if w != [] {
      assert (w + b)[1..] == w[1..] + b;
      SpaceRunOf(w[1..], b);
    } else {
      assert w + b == b;
    }
  }

  /** The pieces of s between the runs of `\s`, with the empty ones at either end. */
  function Pieces(s: string): (ps: seq<string>)
    ensures |ps| >= 1
    ensures forall k :: 0 <= k < |ps| ==> NoSpace(ps[k])
    decreases |s|
  {
    var i := FirstSpace(s);
    if i == |s| then
      assert s[..i] == s;
      [s]
    else
      [s[..i]] + Pieces(s[i + SpaceRun(s[i..])..])
  }

  /** The list without its trailing empty strings, as String.split with limit 0 returns it. */
  function DropTrailingEmpty(ps: seq<string>): (r: seq<string>)
    ensures |r| <= |ps| && r == ps[..|r|]
    ensures r == [] || r[|r| - 1] != []
  {
    if ps != [] && ps[|ps| - 1] == [] then DropTrailingEmpty(ps[..|ps| - 1]) else ps
  }

  /**
   * s.split("\\s+"): s itself when it has no `\s`; otherwise the pieces
   * between the whitespace runs without the trailing empty ones (a leading
   * empty piece stays).
   */
  function Split(s: string): (ps: seq<string>)
    ensures forall k :: 0 <= k < |ps| ==> NoSpace(ps[k])
    ensures NoSpace(s) ==> ps == [s]
  {
    if NoSpace(s) then [s] else DropTrailingEmpty(Pieces(s))
  }

  /** Two words separated by whitespace split back into those two words. */
  lemma {:induction false} SplitTwoWords(a: string, w: string, b: string)
    requires a != [] && b != [] && NoSpace(a) && NoSpace(b)
    requires w != [] && AllSpace(w)
    ensures Split(a + w + b) == [a, b]
  {
    PiecesStep(a, w, b);
    NoSpaceFirstSpace(b);
    assert b[..|b|] == b;
    assert Pieces(b) == [b];
    assert (a + w + b)[|a|] == w[0];
    assert !NoSpace(a + w + b);
    assert DropTrailingEmpty([a, b]) == [a, b];
  }

  lemma {:induction false} PiecesStep(a: string, w: string, b: string)
    requires NoSpace(a) && w != [] && AllSpace(w)
    requires b == [] || !IsSpace(b[0])
    ensures Pieces(a + w + b) == [a] + Pieces(b)
  {
    var s := a + w + b;
    assert s == a + (w + b);
    FirstSpaceOf(a, w + b);
    assert s[|a|..] == w + b;
    SpaceRunOf(w, b);
    assert s[..|a|] == a;
    assert s[|a| + |w|..] == b;
  }

  lemma {:induction false} NoSpaceFirstSpace(s: string)
    requires NoSpace(s)
    ensures FirstSpace(s) == |s|
  {
    if s != [] {
      NoSpaceFirstSpace(s[1..]);
    }
  }

  /**
   * String.format, reduced to the conversions that can reach it through
   * the core's format strings: `%%` (a percent sign), `%n` (the line
   * separator `ls`) and `%s` (the next argument, as text). A `%` at the end
   * of the format, a `%s` without an argument left and every other
   * conversion are None: Formatter throws for the first two and for the
   * conversions that need a number, and the rest (widths, flags, argument
   * indices) are outside this fragment. A format without `%` renders as
   * itself.
   */
  function Format(f: string, args: seq<string>, ls: string): (r: Option<string>)
    ensures '%' !in f ==> r == Some(f)
    decreases |f|
  {
    if f == [] then Some([])
    else if f[0] != '%' then assert [f[0]] + f[1..] == f; Prepend([f[0]], Format(f[1..], args, ls))
    else if |f| == 1 then None
    else if f[1] == '%' then Prepend("%", Format(f[2..], args, ls))
    else if f[1] == 'n' then Prepend(ls, Format(f[2..], args, ls))
    else if f[1] == 's' && args != [] then Prepend(args[0], Format(f[2..], args[1..], ls))
    else None
  }

  function Prepend(p: string, r: Option<string>): (q: Option<string>)
    ensures q.Some? <==> r.Some?
    ensures q.Some? ==> q.value == p + r.value
  {
    match r
    case None => None
    case Some(t) => Some(p + t)
  }

  /** A format with no `%` other than a final `%s` renders as its text followed by the argument. */
  lemma {:induction false} FormatPlain(t: string, arg: string, ls: string)
    requires '%' !in t
    ensures Format(t + "%s", [arg], ls) == Some(t + arg)
    decreases |t|
  {
    if t == [] {
      assert t + "%s" == "%s";
      assert "%s"[2..] == [];
      assert Format("%s", [arg], ls) == Prepend(arg, Format([], [], ls));
      assert arg + [] == arg == t + arg;
    } else {
      assert (t + "%s")[1..] == t[1..] + "%s";
      FormatPlain(t[1..], arg, ls);
      assert [t[0]] + (t[1..] + arg) == t + arg;
    }
  }
}
