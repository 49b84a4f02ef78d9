/**
 * Query-component escaping as Go's `url.QueryEscape` performs it, and the
 * unescaping `url.QueryUnescape` performs. The unreserved characters of
 * section 2.3 of RFC 3986 (ALPHA, DIGIT, '-', '.', '_', '~') pass through,
 * a space becomes '+', and every other byte becomes '%' and two upper-case
 * hexadecimal digits.
 */
module UrlEscape {
  import opened Wrappers
  import opened Strings

  /** The unreserved characters of section 2.3 of RFC 3986. */
  predicate Unreserved(c: Octet)
  {
    || 'a' <= c <= 'z'
    || 'A' <= c <= 'Z'
    || '0' <= c <= '9'
    || c == '-' || c == '_' || c == '.' || c == '~'
  }

  predicate IsHex(c: Octet)
  {
    '0' <= c <= '9' || 'a' <= c <= 'f' || 'A' <= c <= 'F'
  }

  function HexDigit(d: nat): (c: Octet)
    requires d < 16
    ensures IsHex(c) && Unreserved(c)
  {
    "0123456789ABCDEF"[d]
  }

  /** The value of a hexadecimal digit, either case. */
  function Unhex(c: Octet): (d: nat)
    requires IsHex(c)
    ensures d < 16
  {
    if '0' <= c <= '9' then (c as int) - ('0' as int)
    else if 'a' <= c <= 'f' then (c as int) - ('a' as int) + 10
    else (c as int) - ('A' as int) + 10
  }

  /** The escaped form of one byte. */
  function EscapeByte(c: Octet): (r: Bytes)
  {
    if Unreserved(c) then [c]
    else if c == ' ' then ['+']
    else ['%', HexDigit(c as int / 16), HexDigit(c as int % 16)]
  }

  /**
   * `url.QueryEscape`: each byte escaped in turn. The result holds only
   * unreserved characters, '%' and '+', so no '&', '=' or ';' that a reader
   * could take for a separator, and is at least as long as `s`.
   */
  function QueryEscape(s: Bytes): (r: Bytes)
    ensures forall i :: 0 <= i < |r| ==> Unreserved(r[i]) || r[i] == '%' || r[i] == '+'
    ensures |s| <= |r| <= 3 * |s|
  {
    if s == [] then [] else EscapeByte(s[0]) + QueryEscape(s[1..])
  }

  /**
   * `url.QueryUnescape`: '+' is a space, '%' must be followed by two
   * hexadecimal digits (an error otherwise), every other byte stands for itself.
   */
  function QueryUnescape(s: Bytes): Option<Bytes>
  {
    if s == [] then Some([])
    else if s[0] == '%' then
      if |s| < 3 || !IsHex(s[1]) || !IsHex(s[2]) then None
      else
        match QueryUnescape(s[3..])
        case None => None
        case Some(t) => Some([(16 * Unhex(s[1]) + Unhex(s[2])) as char] + t)
    else
      match QueryUnescape(s[1..])
      case None => None
      case Some(t) => Some([if s[0] == '+' then ' ' else s[0]] + t)
  }

  lemma UnhexHexDigit(d: nat)
    requires d < 16
    ensures Unhex(HexDigit(d)) == d
  {
  }

  /** Unescaping one escaped byte ahead of text that unescapes to `t` gives the byte, then `t`. */
  lemma UnescapeEscapeByte(c: Octet, rest: Bytes, t: Bytes)
    requires QueryUnescape(rest) == Some(t)
    ensures QueryUnescape(EscapeByte(c) + rest) == Some([c] + t)
  {
    var e := EscapeByte(c) + rest;
    if !Unreserved(c) && c != ' ' {
      assert e[3..] == rest;
      UnhexHexDigit(c as int / 16);
      UnhexHexDigit(c as int % 16);
    } else {
      assert e[1..] == rest;
    }
  }

  /** Unescaping undoes escaping, for every string of bytes. */
  lemma {:induction false} UnescapeEscape(s: Bytes)
    ensures QueryUnescape(QueryEscape(s)) == Some(s)
  {
    if s != [] {
      UnescapeEscape(s[1..]);
      UnescapeEscapeByte(s[0], QueryEscape(s[1..]), s[1..]);
      assert s == [s[0]] + s[1..];
    }
  }

  predicate AllUnreserved(s: Bytes)
  {
    forall i :: 0 <= i < |s| ==> Unreserved(s[i])
  }

  /** A string of unreserved characters is its own escaped form. */
  lemma {:induction false} QueryEscapeUnreserved(s: Bytes)
    requires AllUnreserved(s)
    ensures QueryEscape(s) == s
  {
    if s != [] {
      QueryEscapeUnreserved(s[1..]);
    }
  }

  /** A comma is escaped, so a comma-separated list travels as one value. */
  lemma QueryEscapeCommaList()
    ensures QueryEscape("A,B") == "A%2CB"
  {
    assert QueryEscape("A,B") == EscapeByte('A') + EscapeByte(',') + EscapeByte('B') by {
      assert "A,B"[1..] == ",B" && ",B"[1..] == "B";
    }
  }
}
