/**
 Percent-encoding (section 2.1 of RFC 3986) in the modes the printer and parser
 use, and the query codec built on it.
 */
module Percent {
  import opened Wrappers
  import opened GoText

  datatype Mode = Query | PathSegment | UserInfo | Fragment | Host

  predicate IsUnreserved(c: char) {
    IsAlnum(c) || c in {'-', '_', '.', '~'}
  }

  /** Which bytes a mode writes as %XX. */
  predicate ShouldEscape(mode: Mode, c: char) {
    if IsUnreserved(c) then false
    else if mode == Host && c in {'!', '$', '&', '\'', '(', ')', '*', '+', ',', ';', '=', ':', '[', ']', '<', '>', '\"'} then false
    else if c in {'$', '&', '+', ',', '/', ':', ';', '=', '?', '@'} then
      match mode
      case PathSegment => c in {'/', ';', ',', '?'}
      case UserInfo => c in {'@', '/', '?', ':'}
      case Query => true
      case Fragment => false
      case Host => true
    else if mode == Fragment && c in {'!', '(', ')', '*'} then false
    else true
  }

  function HexChar(v: nat): char
    requires v < 16
  {
    if v < 10 then ('0' as int + v) as char else ('A' as int + v - 10) as char
  }

  function HexValue(c: char): (r: Option<nat>)
    ensures r.Some? ==> r.value < 16
  {
    if IsDigit(c) then Some(c as int - '0' as int)
    else if 'A' <= c <= 'F' then Some(c as int - 'A' as int + 10)
    else if 'a' <= c <= 'f' then Some(c as int - 'a' as int + 10)
    else None
  }

  /** Hexadecimal digits mean the same in either case, and nothing else is one. */
  lemma HexValueIs(c: char, v: nat)
    requires v < 16
    ensures HexValue(c) == Some(v) <==> c == "0123456789ABCDEF"[v] || c == "0123456789abcdef"[v]
  {
  }

  /** Only bytes are ever escaped; the bound makes the function total. */
  function EscapeChar(mode: Mode, c: char): string {
    if mode == Query && c == ' ' then "+"
    else if ShouldEscape(mode, c) && c as int < 256 then ['%', HexChar(c as int / 16), HexChar(c as int % 16)]
    else [c]
  }

  function Escape(mode: Mode, s: string): string {
    if s == "" then "" else EscapeChar(mode, s[0]) + Escape(mode, s[1..])
  }

  /** A malformed escape is an error; in a host, so is a byte that should have
      been escaped, and an escape of an ASCII byte other than "%25". */
  function Unescape(mode: Mode, s: string): Option<string> {
    if s == "" then Some("")
    else if s[0] == '%' then
      if |s| < 3 then None
      else
        var hi, lo := HexValue(s[1]), HexValue(s[2]);
        if hi.None? || lo.None? then None
        else if mode == Host && hi.value < 8 && s[..3] != "%25" then None
        else Prepend((hi.value * 16 + lo.value) as char, Unescape(mode, s[3..]))
    else if mode == Query && s[0] == '+' then Prepend(' ', Unescape(mode, s[1..]))
    else if mode == Host && s[0] as int < 128 && ShouldEscape(mode, s[0]) then None
    else Prepend(s[0], Unescape(mode, s[1..]))
  }

  function Prepend(c: char, r: Option<string>): Option<string> {
    match r
    case None => None
    case Some(s) => Some([c] + s)
  }

  lemma HexRoundTrip(v: nat)
    requires v < 256
    ensures HexValue(HexChar(v / 16)) == Some(v / 16) && HexValue(HexChar(v % 16)) == Some(v % 16)
  {
  }

  /** Text escaped for a query is read back by the query decoder; text escaped for
      a path segment or as user information as either, or as a fragment. */
  predicate Inverts(escape: Mode, unescape: Mode) {
    (escape == Query && unescape == Query) || (escape in {PathSegment, UserInfo} && unescape in {UserInfo, Fragment, PathSegment})
  }

  lemma UnescapeStep(escape: Mode, unescape: Mode, c: char, rest: string)
    requires c as int < 256 && Inverts(escape, unescape)
    ensures Unescape(unescape, EscapeChar(escape, c) + rest) == Prepend(c, Unescape(unescape, rest))
  {
    var e := EscapeChar(escape, c);
    HexRoundTrip(c as int);
    if |e| == 3 {
      assert (e + rest)[3..] == rest;
    } else {
      assert (e + rest)[1..] == rest;
    }
  }

  lemma {:induction false} UnescapeEscape(escape: Mode, unescape: Mode, s: string)
    requires IsBytes(s) && Inverts(escape, unescape)
    ensures Unescape(unescape, Escape(escape, s)) == Some(s)
  {
    if s != "" {
      UnescapeEscape(escape, unescape, s[1..]);
      UnescapeStep(escape, unescape, s[0], Escape(escape, s[1..]));
      assert s == [s[0]] + s[1..];
    }
  }

  /** What can appear in escaped text. */
  /** The same in front of text that is read by itself. */
  lemma {:induction false} UnescapeThen(escape: Mode, unescape: Mode, s: string, rest: string, r: string)
    requires IsBytes(s) && Inverts(escape, unescape) && Unescape(unescape, rest) == Some(r)
    ensures Unescape(unescape, Escape(escape, s) + rest) == Some(s + r)
  {
    hide Unescape, EscapeChar;
    if s != "" {
      var e, tail := EscapeChar(escape, s[0]), Escape(escape, s[1..]);
      UnescapeThen(escape, unescape, s[1..], rest, r);
      UnescapeStep(escape, unescape, s[0], tail + rest);
      assert (e + tail) + rest == e + (tail + rest);
      assert s + r == [s[0]] + (s[1..] + r);
    } else {
      assert "" + rest == rest && "" + r == r;
    }
  }

  lemma {:induction false} EscapedAlphabet(mode: Mode, s: string)
    requires IsBytes(s)
    ensures forall c <- Escape(mode, s) :: c == '%' || (mode == Query && c == '+') || !ShouldEscape(mode, c)
    ensures forall c <- Escape(mode, s) :: !ShouldEscape(mode, c) && !IsUnreserved(c) && c != '%' ==> c in s
  {
    if s != "" {
      EscapedAlphabet(mode, s[1..]);
      var t := EscapeChar(mode, s[0]);
      assert forall c <- t :: c == '%' || (mode == Query && c == '+') || !ShouldEscape(mode, c);
    }
  }

  /** Unescaping never lengthens, and keeps the length exactly when there was
      nothing to unescape. */
  lemma {:induction false} UnescapeLength(mode: Mode, s: string)
    ensures var r := Unescape(mode, s);
            r.Some? ==> |r.value| <= |s| && (|r.value| == |s| ==> '%' !in s)
  {
    if s != "" {
      if s[0] == '%' {
        if |s| >= 3 {
          UnescapeLength(mode, s[3..]);
        }
      } else {
        UnescapeLength(mode, s[1..]);
      }
    }
  }

  lemma {:induction false} UnescapePlain(mode: Mode, s: string)
    requires mode in {UserInfo, Fragment, PathSegment} && '%' !in s
    ensures Unescape(mode, s) == Some(s)
  {
    if s != "" {
      UnescapePlain(mode, s[1..]);
      assert s == [s[0]] + s[1..];
    }
  }

  // ---------- Queries ----------

  type Params = seq<(string, string)>

  predicate ParamsAreBytes(ps: Params) {
    forall i :: 0 <= i < |ps| ==> IsBytes(ps[i].0) && IsBytes(ps[i].1)
  }

  function Pair(p: (string, string)): string {
    Escape(Query, p.0) + "=" + Escape(Query, p.1)
  }

  function EncodeQuery(ps: Params): string {
    if ps == [] then ""
    else if |ps| == 1 then Pair(ps[0])
    else Pair(ps[0]) + "&" + EncodeQuery(ps[1..])
  }

  /** One segment; malformed segments are dropped, as the caller ignores errors. */
  function ParseSegment(seg: string): Params {
    if seg == "" || ';' in seg then []
    else
      var (k, v, _) := Cut(seg, '=');
      match (Unescape(Query, k), Unescape(Query, v))
      case (Some(key), Some(value)) => [(key, value)]
      case _ => []
  }

  function ParseQuery(q: string): Params
    decreases |q|
  {
    if q == "" then []
    else
      var (seg, rest, more) := Cut(q, '&');
      ParseSegment(seg) + if more then ParseQuery(rest) else []
  }

  predicate IsQueryChar(c: char) {
    IsUnreserved(c) || c == '%' || c == '+' || c == '=' || c == '&'
  }

  lemma EscapedKeyOrValue(s: string)
    requires IsBytes(s)
    ensures var t := Escape(Query, s); '=' !in t && '&' !in t && ';' !in t && forall c <- t :: IsQueryChar(c)
  {
    EscapedAlphabet(Query, s);
  }

  lemma PairAlphabet(p: (string, string))
    requires IsBytes(p.0) && IsBytes(p.1)
    ensures var t := Pair(p); t != "" && '&' !in t && ';' !in t && forall c <- t :: IsQueryChar(c)
  {
    EscapedKeyOrValue(p.0);
    EscapedKeyOrValue(p.1);
  }

  lemma ParsePair(p: (string, string))
    requires IsBytes(p.0) && IsBytes(p.1)
    ensures ParseSegment(Pair(p)) == [p]
  {
    var k, v := Escape(Query, p.0), Escape(Query, p.1);
    PairAlphabet(p);
    assert Cut(Pair(p), '=') == (k, v, true) by {
      EscapedKeyOrValue(p.0);
      CutAt(k, '=', v);
    }
    assert Unescape(Query, k) == Some(p.0) by { UnescapeEscape(Query, Query, p.0); }
    assert Unescape(Query, v) == Some(p.1) by { UnescapeEscape(Query, Query, p.1); }
  }

  /** What a printed query consists of. */
  lemma {:induction false} EncodedQueryAlphabet(ps: Params)
    requires ParamsAreBytes(ps)
    ensures forall c <- EncodeQuery(ps) :: IsQueryChar(c)
  {
    if ps != [] {
      PairAlphabet(ps[0]);
      EncodedQueryAlphabet(ps[1..]);
    }
  }

  /** The parser recovers the printed parameters, in order. */
  lemma {:induction false} ParseEncodeQuery(ps: Params)
    requires ParamsAreBytes(ps)
    ensures ParseQuery(EncodeQuery(ps)) == ps
  {
    if ps != [] {
      var pair, rest := Pair(ps[0]), EncodeQuery(ps[1..]);
      ParsePair(ps[0]);
      PairAlphabet(ps[0]);
      ParseEncodeQuery(ps[1..]);
      if |ps| == 1 {
        assert Cut(pair, '&') == (pair, "", false);
        assert ParseQuery(pair) == ParseSegment(pair) + [];
      } else {
        CutAt(pair, '&', rest);
        assert EncodeQuery(ps) == pair + ['&'] + rest;
        assert ParseQuery(EncodeQuery(ps)) == [ps[0]] + ParseQuery(rest);
      }
    }
  }
}
