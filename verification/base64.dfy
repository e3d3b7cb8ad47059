/**
 Base64 and base64url, padded and unpadded (sections 4 and 5 of RFC 4648), with
 the decoder's leniency: line breaks are skipped and the unused low bits of the
 last character are ignored.
 */
module Base64 {
  import opened Wrappers
  import opened GoText

  function EncodeDigit(url: bool, v: nat): char
    requires v < 64
  {
    if v < 26 then ('A' as int + v) as char
    else if v < 52 then ('a' as int + v - 26) as char
    else if v < 62 then ('0' as int + v - 52) as char
    else if v == 62 then (if url then '-' else '+')
    else (if url then '_' else '/')
  }

  function DecodeDigit(url: bool, c: char): (r: Option<nat>)
    ensures r.Some? ==> r.value < 64
  {
    if IsUpper(c) then Some(c as int - 'A' as int)
    else if IsLower(c) then Some(c as int - 'a' as int + 26)
    else if IsDigit(c) then Some(c as int - '0' as int + 52)
    else if c == (if url then '-' else '+') then Some(62)
    else if c == (if url then '_' else '/') then Some(63)
    else None
  }

  function Byte(v: nat): char
    requires v < 256
  {
    v as char
  }

  function Group1(url: bool, a: nat): string
    requires a < 256
  {
    [EncodeDigit(url, a / 4), EncodeDigit(url, a % 4 * 16)]
  }

  function Group2(url: bool, a: nat, b: nat): string
    requires a < 256 && b < 256
  {
    [EncodeDigit(url, a / 4), EncodeDigit(url, a % 4 * 16 + b / 16), EncodeDigit(url, b % 16 * 4)]
  }

  function Group3(url: bool, a: nat, b: nat, c: nat): string
    requires a < 256 && b < 256 && c < 256
  {
    [EncodeDigit(url, a / 4), EncodeDigit(url, a % 4 * 16 + b / 16),
     EncodeDigit(url, b % 16 * 4 + c / 64), EncodeDigit(url, c % 64)]
  }

  function Encode(url: bool, pad: bool, s: string): string
    requires IsBytes(s)
  {
    if s == "" then ""
    else if |s| == 1 then Group1(url, s[0] as int) + if pad then "==" else ""
    else if |s| == 2 then Group2(url, s[0] as int, s[1] as int) + if pad then "=" else ""
    else Group3(url, s[0] as int, s[1] as int, s[2] as int) + Encode(url, pad, s[3..])
  }

  /** The characters that can appear in encoded text. */
  lemma {:induction false} EncodedAlphabet(url: bool, pad: bool, s: string)
    requires IsBytes(s)
    ensures forall c <- Encode(url, pad, s) :: DecodeDigit(url, c).Some? || (pad && c == '=')
  {
    if |s| > 2 {
      EncodedAlphabet(url, pad, s[3..]);
      GroupAlphabet(url, s[0] as int, s[1] as int, s[2] as int);
    } else if s != "" {
      GroupAlphabet(url, s[0] as int, if |s| == 2 then s[1] as int else 0, 0);
    }
  }

  lemma GroupAlphabet(url: bool, a: nat, b: nat, c: nat)
    requires a < 256 && b < 256 && c < 256
    ensures forall x <- Group1(url, a) :: DecodeDigit(url, x).Some?
    ensures forall x <- Group2(url, a, b) :: DecodeDigit(url, x).Some?
    ensures forall x <- Group3(url, a, b, c) :: DecodeDigit(url, x).Some?
  {
    forall v: nat | v < 64 ensures DecodeDigit(url, EncodeDigit(url, v)).Some? {
      DigitRoundTrip(url, v);
    }
  }

  function Bytes1(x: nat, y: nat): string
    requires x < 64 && y < 64
  {
    [Byte(x * 4 + y / 16)]
  }

  function Bytes2(x: nat, y: nat, z: nat): string
    requires x < 64 && y < 64 && z < 64
  {
    [Byte(x * 4 + y / 16), Byte(y % 16 * 16 + z / 4)]
  }

  function Bytes3(x: nat, y: nat, z: nat, w: nat): string
    requires x < 64 && y < 64 && z < 64 && w < 64
  {
    [Byte(x * 4 + y / 16), Byte(y % 16 * 16 + z / 4), Byte(z % 4 * 64 + w)]
  }

  function DropLineBreaks(t: string): string {
    if t == "" then ""
    else if t[0] == '\r' || t[0] == '\n' then DropLineBreaks(t[1..])
    else [t[0]] + DropLineBreaks(t[1..])
  }

  function Decode(url: bool, pad: bool, t: string): Option<string> {
    DecodeGroups(url, pad, DropLineBreaks(t))
  }

  function DecodeGroups(url: bool, pad: bool, t: string): Option<string> {
    if t == "" then Some("")
    else if |t| == 1 then None
    else
      var x, y := DecodeDigit(url, t[0]), DecodeDigit(url, t[1]);
      if x.None? || y.None? then None
      else if (!pad && |t| == 2) || (pad && |t| == 4 && t[2..] == "==") then Some(Bytes1(x.value, y.value))
      else if |t| == 2 then None
      else
        var z := DecodeDigit(url, t[2]);
        if z.None? then None
        else if (!pad && |t| == 3) || (pad && |t| == 4 && t[3] == '=') then Some(Bytes2(x.value, y.value, z.value))
        else if |t| == 3 then None
        else
          var w, rest := DecodeDigit(url, t[3]), DecodeGroups(url, pad, t[4..]);
          if w.None? || rest.None? then None
          else Some(Bytes3(x.value, y.value, z.value, w.value) + rest.value)
  }

  lemma DigitRoundTrip(url: bool, v: nat)
    requires v < 64
    ensures DecodeDigit(url, EncodeDigit(url, v)) == Some(v)
  {
  }

  /** A digit of either alphabet means the same in the other, or nothing. */
  lemma DigitsAgree(u: bool, url: bool, v: nat)
    requires v < 64
    ensures DecodeDigit(u, EncodeDigit(url, v)) in {None, Some(v)}
    ensures EncodeDigit(url, v) != '='
  {
  }

  lemma {:induction false} NoLineBreaks(t: string)
    requires '\r' !in t && '\n' !in t
    ensures DropLineBreaks(t) == t
  {
    if t != "" {
      NoLineBreaks(t[1..]);
    }
  }

  lemma BytesOfGroups(a: nat, b: nat, c: nat)
    requires a < 256 && b < 256 && c < 256
    ensures Bytes1(a / 4, a % 4 * 16) == [Byte(a)]
    ensures Bytes2(a / 4, a % 4 * 16 + b / 16, b % 16 * 4) == [Byte(a), Byte(b)]
    ensures Bytes3(a / 4, a % 4 * 16 + b / 16, b % 16 * 4 + c / 64, c % 64) == [Byte(a), Byte(b), Byte(c)]
  {
  }

  /** One step of the decoder on four characters that are not padding. */
  lemma DecodeStep(u: bool, pad: bool, x: char, y: char, z: char, w: char, rest: string)
    requires z != '=' && w != '='
    ensures var a, b, c, d, tail := DecodeDigit(u, x), DecodeDigit(u, y), DecodeDigit(u, z), DecodeDigit(u, w), DecodeGroups(u, pad, rest);
            DecodeGroups(u, pad, [x, y, z, w] + rest) ==
            if a.Some? && b.Some? && c.Some? && d.Some? && tail.Some?
            then Some(Bytes3(a.value, b.value, c.value, d.value) + tail.value) else None
  {
    var t := [x, y, z, w] + rest;
    assert t[4..] == rest && t[2..][0] == z;
  }

  /** Reading a full group of either alphabet, then the rest. */
  lemma DecodeGroup3(u: bool, pad: bool, url: bool, a: nat, b: nat, c: nat, rest: string)
    requires a < 256 && b < 256 && c < 256
    ensures var r, tail := DecodeGroups(u, pad, Group3(url, a, b, c) + rest), DecodeGroups(u, pad, rest);
            (r.Some? ==> tail.Some? && r.value == [Byte(a), Byte(b), Byte(c)] + tail.value)
            && (u == url ==> r.Some? == tail.Some?)
  {
    var g := Group3(url, a, b, c);
    DigitsAgree(u, url, a / 4);
    DigitsAgree(u, url, a % 4 * 16 + b / 16);
    DigitsAgree(u, url, b % 16 * 4 + c / 64);
    DigitsAgree(u, url, c % 64);
    DecodeStep(u, pad, g[0], g[1], g[2], g[3], rest);
    BytesOfGroups(a, b, c);
    if u == url {
      DigitRoundTrip(url, a / 4);
      DigitRoundTrip(url, a % 4 * 16 + b / 16);
      DigitRoundTrip(url, b % 16 * 4 + c / 64);
      DigitRoundTrip(url, c % 64);
    }
  }

  /** Reading a final group of one byte, unpadded or padded. */
  lemma DecodeTail1(u: bool, pad: bool, url: bool, a: nat)
    requires a < 256
    ensures DecodeGroups(u, pad, Group1(url, a)) in {None, Some([Byte(a)])}
    ensures DecodeGroups(url, false, Group1(url, a)) == Some([Byte(a)])
    ensures DecodeGroups(url, true, Group1(url, a) + "==") == Some([Byte(a)])
  {
    BytesOfGroups(a, 0, 0);
    DigitsAgree(u, url, a / 4);
    DigitsAgree(u, url, a % 4 * 16);
    DigitRoundTrip(url, a / 4);
    DigitRoundTrip(url, a % 4 * 16);
    assert (Group1(url, a) + "==")[2..] == "==";
  }

  /** Reading a final group of two bytes, unpadded or padded. */
  lemma DecodeTail2(u: bool, pad: bool, url: bool, a: nat, b: nat)
    requires a < 256 && b < 256
    ensures DecodeGroups(u, pad, Group2(url, a, b)) in {None, Some([Byte(a), Byte(b)])}
    ensures DecodeGroups(url, false, Group2(url, a, b)) == Some([Byte(a), Byte(b)])
    ensures DecodeGroups(url, true, Group2(url, a, b) + "=") == Some([Byte(a), Byte(b)])
  {
    BytesOfGroups(a, b, 0);
    DigitsAgree(u, url, a / 4);
    DigitsAgree(u, url, a % 4 * 16 + b / 16);
    DigitsAgree(u, url, b % 16 * 4);
    DigitRoundTrip(url, a / 4);
    DigitRoundTrip(url, a % 4 * 16 + b / 16);
    DigitRoundTrip(url, b % 16 * 4);
    var t := Group2(url, a, b) + "=";
    assert t[2..][0] != '=';
  }

  lemma DecodeTail(u: bool, pad: bool, url: bool, s: string)
    requires IsBytes(s) && 0 < |s| < 3
    ensures DecodeGroups(u, pad, Encode(url, false, s)) in {None, Some(s)}
    ensures DecodeGroups(url, pad, Encode(url, pad, s)) == Some(s)
  {
    if |s| == 1 {
      assert Group1(url, s[0] as int) + "" == Group1(url, s[0] as int);
      DecodeTail1(u, pad, url, s[0] as int);
      assert s == [s[0]];
    } else {
      assert Group2(url, s[0] as int, s[1] as int) + "" == Group2(url, s[0] as int, s[1] as int);
      DecodeTail2(u, pad, url, s[0] as int, s[1] as int);
      assert s == [s[0], s[1]];
    }
  }

  /** Padding that the decoder does not expect is an error. */
  lemma PaddedTail1(u: bool, pad: bool, url: bool, a: nat)
    requires a < 256
    ensures DecodeGroups(u, pad, Group1(url, a) + "==") in {None, Some([Byte(a)])}
  {
    BytesOfGroups(a, 0, 0);
    DigitsAgree(u, url, a / 4);
    DigitsAgree(u, url, a % 4 * 16);
    assert (Group1(url, a) + "==")[2..] == "==";
  }

  lemma PaddedTail2(u: bool, pad: bool, url: bool, a: nat, b: nat)
    requires a < 256 && b < 256
    ensures DecodeGroups(u, pad, Group2(url, a, b) + "=") in {None, Some([Byte(a), Byte(b)])}
  {
    BytesOfGroups(a, b, 0);
    DigitsAgree(u, url, a / 4);
    DigitsAgree(u, url, a % 4 * 16 + b / 16);
    DigitsAgree(u, url, b % 16 * 4);
    assert (Group2(url, a, b) + "=")[2..][0] != '=';
  }

  lemma PaddedTail(u: bool, pad: bool, url: bool, s: string)
    requires IsBytes(s) && 0 < |s| < 3
    ensures DecodeGroups(u, pad, Encode(url, true, s)) in {None, Some(s)}
  {
    if |s| == 1 {
      PaddedTail1(u, pad, url, s[0] as int);
      assert s == [s[0]];
    } else {
      PaddedTail2(u, pad, url, s[0] as int, s[1] as int);
      assert s == [s[0], s[1]];
    }
  }

  /** Whatever alphabet and padding a decoder expects, on text of either alphabet,
      padded or not, it yields the encoded bytes or an error, never other bytes. */
  lemma {:induction false} DecodeGroupsSound(u: bool, pad: bool, url: bool, padded: bool, s: string)
    requires IsBytes(s)
    ensures DecodeGroups(u, pad, Encode(url, padded, s)) in {None, Some(s)}
  {
    if 0 < |s| < 3 {
      if padded {
        PaddedTail(u, pad, url, s);
      } else {
        DecodeTail(u, pad, url, s);
      }
    } else if s != "" {
      DecodeGroup3(u, pad, url, s[0] as int, s[1] as int, s[2] as int, Encode(url, padded, s[3..]));
      DecodeGroupsSound(u, pad, url, padded, s[3..]);
      assert s == [s[0], s[1], s[2]] + s[3..];
    }
  }

  /** The matching decoder succeeds, padded or not. */
  lemma {:induction false} DecodeGroupsTotal(url: bool, pad: bool, s: string)
    requires IsBytes(s)
    ensures DecodeGroups(url, pad, Encode(url, pad, s)) == Some(s)
  {
    if 0 < |s| < 3 {
      DecodeTail(url, pad, url, s);
    } else if s != "" {
      DecodeGroup3(url, pad, url, s[0] as int, s[1] as int, s[2] as int, Encode(url, pad, s[3..]));
      DecodeGroupsTotal(url, pad, s[3..]);
      assert s == [s[0], s[1], s[2]] + s[3..];
    }
  }

  lemma DecodeEncode(url: bool, pad: bool, s: string)
    requires IsBytes(s)
    ensures Decode(url, pad, Encode(url, pad, s)) == Some(s)
  {
    EncodedAlphabet(url, pad, s);
    NoLineBreaks(Encode(url, pad, s));
    DecodeGroupsTotal(url, pad, s);
  }

  lemma {:induction false} DropConcat(a: string, b: string)
    ensures DropLineBreaks(a + b) == DropLineBreaks(a) + DropLineBreaks(b)
  {
    if a == "" {
      assert a + b == b;
    } else {
      assert (a + b)[1..] == a[1..] + b;
      DropConcat(a[1..], b);
    }
  }

  /** A line break anywhere in a text changes nothing. */
  lemma LineBreakIgnored(url: bool, pad: bool, a: string, b: string, br: char)
    requires br == '\r' || br == '\n'
    ensures Decode(url, pad, a + [br] + b) == Decode(url, pad, a + b)
  {
    DropConcat(a + [br], b);
    DropConcat(a, [br]);
    DropConcat(a, b);
    assert [br][1..] == "" && DropLineBreaks([br]) == "" && DropLineBreaks(a) + "" == DropLineBreaks(a);
  }

  /** The tolerant decoder of the self-test: four alphabets in a fixed order. */
  function DecodeAny(text: string): Option<string> {
    var t := TrimSpace(text);
    var std := Decode(false, true, t);
    if std.Some? then std
    else
      var rawStd := Decode(false, false, t);
      if rawStd.Some? then rawStd
      else
        var padUrl := Decode(true, true, t);
        if padUrl.Some? then padUrl else Decode(true, false, t)
  }

  lemma TrimKeeps(t: string)
    requires forall c <- t :: !IsSpace(c)
    ensures TrimSpace(t) == t
  {
  }

  /** Although other alphabets may be tried first, text in any of the four comes
      back as the bytes it encodes. */
  lemma DecodeAnyInverts(url: bool, padded: bool, s: string)
    requires IsBytes(s)
    ensures DecodeAny(Encode(url, padded, s)) == Some(s)
  {
    hide DecodeGroups, Encode;
    var t := Encode(url, padded, s);
    EncodedAlphabet(url, padded, s);
    TrimKeeps(t);
    NoLineBreaks(t);
    DecodeGroupsSound(false, true, url, padded, s);
    DecodeGroupsSound(false, false, url, padded, s);
    DecodeGroupsSound(true, true, url, padded, s);
    DecodeGroupsSound(true, false, url, padded, s);
    DecodeGroupsTotal(url, padded, s);
  }

  /** Text with a character of no alphabet is not base64. */
  lemma {:induction false} DecodedHasDigits(url: bool, pad: bool, t: string)
    requires DecodeGroups(url, pad, t).Some?
    ensures forall c <- t :: DecodeDigit(url, c).Some? || c == '='
  {
    if |t| >= 4 {
      var x, y, z, w := t[0], t[1], t[2], t[3];
      assert t == [x, y, z, w] + t[4..];
      if t[2..] != "==" && w != '=' {
        DecodedHasDigits(url, pad, t[4..]);
      } else if pad && |t| == 4 {
        assert t[4..] == "";
        assert t[2..] == "==" ==> z == t[2..][0] && w == t[2..][1];
      } else {
        DecodedHasDigits(url, pad, t[4..]);
      }
    }
  }

  lemma {:induction false} DropKeeps(t: string, c: char)
    requires c in t && c != '\r' && c != '\n'
    ensures c in DropLineBreaks(t)
  {
    if t[0] != c {
      DropKeeps(t[1..], c);
    }
  }

  lemma {:induction false} TrimLeftKeeps(t: string, c: char)
    requires c in t && !IsSpace(c)
    ensures c in TrimLeft(t)
  {
    if IsSpace(t[0]) {
      TrimLeftKeeps(t[1..], c);
    }
  }

  lemma {:induction false} TrimRightKeeps(t: string, c: char)
    requires c in t && !IsSpace(c)
    ensures c in TrimRight(t)
  {
    if IsSpace(t[|t| - 1]) {
      TrimRightKeeps(t[..|t| - 1], c);
    }
  }

  lemma ColonIsNoBase64(t: string)
    requires ':' in t
    ensures DecodeAny(t) == None
  {
    TrimLeftKeeps(t, ':');
    TrimRightKeeps(TrimLeft(t), ':');
    DropKeeps(TrimSpace(t), ':');
    forall url, pad | Decode(url, pad, TrimSpace(t)).Some? ensures false {
      DecodedHasDigits(url, pad, DropLineBreaks(TrimSpace(t)));
    }
  }

  // ---------- What the lenient decoder accepts ----------

  /** Values of the last character that decode alike. */
  function Slack(length: nat): nat {
    if length % 4 == 2 then 16 else if length % 4 == 3 then 4 else 1
  }

  /** Equal but for the unused low bits of the last character. */
  predicate Near(url: bool, t: string, e: string) {
    && |t| == |e| && (forall i :: 0 <= i < |t| - 1 ==> t[i] == e[i])
    && (t != "" ==>
          var x, y := DecodeDigit(url, t[|t| - 1]), DecodeDigit(url, e[|t| - 1]);
          x.Some? && y.Some? && x.value / Slack(|t|) == y.value / Slack(|t|))
  }

  lemma DigitInverse(url: bool, c: char)
    ensures var v := DecodeDigit(url, c); v.Some? ==> EncodeDigit(url, v.value) == c
  {
  }

  lemma GroupsOfBytes(url: bool, x: nat, y: nat, z: nat, w: nat)
    requires x < 64 && y < 64 && z < 64 && w < 64
    ensures var b := Bytes1(x, y); Group1(url, b[0] as int) == [EncodeDigit(url, x), EncodeDigit(url, y / 16 * 16)]
    ensures var b := Bytes2(x, y, z);
            Group2(url, b[0] as int, b[1] as int) == [EncodeDigit(url, x), EncodeDigit(url, y), EncodeDigit(url, z / 4 * 4)]
    ensures var b := Bytes3(x, y, z, w);
            Group3(url, b[0] as int, b[1] as int, b[2] as int)
            == [EncodeDigit(url, x), EncodeDigit(url, y), EncodeDigit(url, z), EncodeDigit(url, w)]
  {
    var b := Bytes3(x, y, z, w);
    assert b[0] as int / 4 == x && b[0] as int % 4 * 16 + b[1] as int / 16 == y;
    assert b[1] as int % 16 * 4 + b[2] as int / 64 == z && b[2] as int % 64 == w;
  }

  lemma PairIsNear(url: bool, t: string, x: nat, y: nat, last: nat)
    requires |t| == 2 && x < 64 && last < 64 && t[0] == EncodeDigit(url, x)
    requires DecodeDigit(url, t[1]) == Some(y) && y / 16 == last / 16
    ensures Near(url, t, [EncodeDigit(url, x), EncodeDigit(url, last)])
  {
    DigitRoundTrip(url, last);
  }

  lemma TripleIsNear(url: bool, t: string, x: nat, y: nat, z: nat, last: nat)
    requires |t| == 3 && x < 64 && y < 64 && last < 64 && t[0] == EncodeDigit(url, x) && t[1] == EncodeDigit(url, y)
    requires DecodeDigit(url, t[2]) == Some(z) && z / 4 == last / 4
    ensures Near(url, t, [EncodeDigit(url, x), EncodeDigit(url, y), EncodeDigit(url, last)])
  {
    DigitRoundTrip(url, last);
  }

  lemma DecodedTail1(url: bool, t: string, x: nat, y: nat)
    requires |t| == 2 && DecodeDigit(url, t[0]) == Some(x) && DecodeDigit(url, t[1]) == Some(y)
    ensures Near(url, t, Encode(url, false, Bytes1(x, y)))
  {
    GroupsOfBytes(url, x, y, 0, 0);
    DigitInverse(url, t[0]);
    PairIsNear(url, t, x, y, y / 16 * 16);
  }

  lemma DecodedTail2(url: bool, t: string, x: nat, y: nat, z: nat)
    requires |t| == 3 && DecodeDigit(url, t[0]) == Some(x) && DecodeDigit(url, t[1]) == Some(y) && DecodeDigit(url, t[2]) == Some(z)
    ensures Near(url, t, Encode(url, false, Bytes2(x, y, z)))
  {
    GroupsOfBytes(url, x, y, z, 0);
    DigitInverse(url, t[0]);
    DigitInverse(url, t[1]);
    TripleIsNear(url, t, x, y, z, z / 4 * 4);
  }

  /** Four digits and what follows them. */
  lemma EncodeBytes3(url: bool, group: string, x: nat, y: nat, z: nat, w: nat, rest: string)
    requires x < 64 && y < 64 && z < 64 && w < 64 && IsBytes(rest)
    requires group == [EncodeDigit(url, x), EncodeDigit(url, y), EncodeDigit(url, z), EncodeDigit(url, w)]
    ensures var r := Bytes3(x, y, z, w) + rest; IsBytes(r) && Encode(url, false, r) == group + Encode(url, false, rest)
  {
    GroupsOfBytes(url, x, y, z, w);
    assert (Bytes3(x, y, z, w) + rest)[3..] == rest;
  }

  /** Four decodable characters are the digits of their values. */
  lemma DigitsOfText(url: bool, t: string)
    requires |t| == 4 && forall i :: 0 <= i < 4 ==> DecodeDigit(url, t[i]).Some?
    ensures t == [EncodeDigit(url, DecodeDigit(url, t[0]).value), EncodeDigit(url, DecodeDigit(url, t[1]).value),
                  EncodeDigit(url, DecodeDigit(url, t[2]).value), EncodeDigit(url, DecodeDigit(url, t[3]).value)]
  {
    DigitInverse(url, t[0]);
    DigitInverse(url, t[1]);
    DigitInverse(url, t[2]);
    DigitInverse(url, t[3]);
  }

  lemma {:induction false} DecodedIsNear(url: bool, t: string)
    requires DecodeGroups(url, false, t).Some?
    ensures var r := DecodeGroups(url, false, t).value; IsBytes(r) && Near(url, t, Encode(url, false, r))
  {
    hide Near, Encode, Bytes3;
    if |t| >= 4 {
      var group, rest := t[..4], DecodeGroups(url, false, t[4..]).value;
      var x, y := DecodeDigit(url, group[0]).value, DecodeDigit(url, group[1]).value;
      var z, w := DecodeDigit(url, group[2]).value, DecodeDigit(url, group[3]).value;
      DecodedIsNear(url, t[4..]);
      DigitsOfText(url, group);
      EncodeBytes3(url, group, x, y, z, w, rest);
      NearGroup(url, group, t[4..], Encode(url, false, rest));
      assert group + t[4..] == t;
    } else if |t| == 3 {
      DecodedTail2(url, t, DecodeDigit(url, t[0]).value, DecodeDigit(url, t[1]).value, DecodeDigit(url, t[2]).value);
    } else if |t| == 2 {
      DecodedTail1(url, t, DecodeDigit(url, t[0]).value, DecodeDigit(url, t[1]).value);
    } else {
      NothingIsNear(url);
    }
  }

  lemma NothingIsNear(url: bool)
    ensures Near(url, "", Encode(url, false, ""))
  {
  }

  lemma NearGroup(url: bool, group: string, t: string, e: string)
    requires |group| == 4 && DecodeDigit(url, group[3]).Some?
    ensures Near(url, group + t, group + e) <==> Near(url, t, e)
  {
    assert |group + t| % 4 == |t| % 4;
    if |t| == |e| {
      assert forall i :: 0 <= i < |t| ==> (group + t)[i + 4] == t[i] && (group + e)[i + 4] == e[i];
    }
  }

  lemma NearPair(url: bool, t: string, p: nat, q: nat)
    requires p < 64 && q < 64 && Near(url, t, [EncodeDigit(url, p), EncodeDigit(url, q)])
    ensures var last := DecodeDigit(url, t[1]);
            last.Some? && last.value / 16 == q / 16 && DecodeGroups(url, false, t) == Some(Bytes1(p, last.value))
  {
    DigitRoundTrip(url, p);
    DigitRoundTrip(url, q);
    assert t[0] == EncodeDigit(url, p);
  }

  lemma NearTriple(url: bool, t: string, p: nat, q: nat, r: nat)
    requires p < 64 && q < 64 && r < 64 && Near(url, t, [EncodeDigit(url, p), EncodeDigit(url, q), EncodeDigit(url, r)])
    ensures var last := DecodeDigit(url, t[2]);
            last.Some? && last.value / 4 == r / 4 && DecodeGroups(url, false, t) == Some(Bytes2(p, q, last.value))
  {
    DigitRoundTrip(url, p);
    DigitRoundTrip(url, q);
    DigitRoundTrip(url, r);
    assert t[0] == EncodeDigit(url, p) && t[1] == EncodeDigit(url, q);
  }

  lemma SlackBytes(a: nat, b: nat, last: nat)
    requires a < 256 && b < 256 && last < 64
    ensures last / 16 == a % 4 * 16 / 16 ==> Bytes1(a / 4, last) == [Byte(a)]
    ensures last / 4 == b % 16 * 4 / 4 ==> Bytes2(a / 4, a % 4 * 16 + b / 16, last) == [Byte(a), Byte(b)]
  {
  }

  lemma NearTail1(url: bool, t: string, a: nat)
    requires a < 256 && Near(url, t, Group1(url, a))
    ensures DecodeGroups(url, false, t) == Some([Byte(a)])
  {
    NearPair(url, t, a / 4, a % 4 * 16);
    SlackBytes(a, 0, DecodeDigit(url, t[1]).value);
  }

  lemma NearTail2(url: bool, t: string, a: nat, b: nat)
    requires a < 256 && b < 256 && Near(url, t, Group2(url, a, b))
    ensures DecodeGroups(url, false, t) == Some([Byte(a), Byte(b)])
  {
    NearTriple(url, t, a / 4, a % 4 * 16 + b / 16, b % 16 * 4);
    SlackBytes(a, b, DecodeDigit(url, t[2]).value);
  }

  lemma NearStartsWith(url: bool, t: string, group: string, e: string)
    requires |group| == 4 && Near(url, t, group + e)
    ensures |t| >= 4 && t == group + t[4..]
  {
    if e == "" {
      assert group + e == group;
      LastOfFull(url, t, group);
    }
  }

  lemma {:induction false} NearDecodes(url: bool, t: string, s: string)
    requires IsBytes(s) && Near(url, t, Encode(url, false, s))
    ensures DecodeGroups(url, false, t) == Some(s)
  {
    if |s| > 2 {
      var a, b, c := s[0] as int, s[1] as int, s[2] as int;
      var group, e := Group3(url, a, b, c), Encode(url, false, s[3..]);
      NearStartsWith(url, t, group, e);
      DigitsOfGroup(url, a, b, c);
      NearGroup(url, group, t[4..], e);
      NearDecodes(url, t[4..], s[3..]);
      DecodeGroup3(url, false, url, a, b, c, t[4..]);
      assert [Byte(a), Byte(b), Byte(c)] + s[3..] == s;
    } else if |s| == 2 {
      NearTail2(url, t, s[0] as int, s[1] as int);
      assert s == [Byte(s[0] as int), Byte(s[1] as int)];
    } else if |s| == 1 {
      NearTail1(url, t, s[0] as int);
      assert s == [Byte(s[0] as int)];
    }
  }

  lemma LastOfFull(url: bool, t: string, group: string)
    requires |t| == |group| == 4 && Near(url, t, group)
    ensures t == group
  {
    DigitInverse(url, t[3]);
    DigitInverse(url, group[3]);
    assert |t| == 4 && Slack(|t|) == 1;
    assert t[3] == group[3];
    assert t[0] == group[0] && t[1] == group[1] && t[2] == group[2];
  }

  lemma DigitsOfGroup(url: bool, a: nat, b: nat, c: nat)
    requires a < 256 && b < 256 && c < 256
    ensures var g := Group3(url, a, b, c);
            DecodeDigit(url, g[0]).Some? && DecodeDigit(url, g[1]).Some? && DecodeDigit(url, g[2]).Some? && DecodeDigit(url, g[3]).Some?
  {
    GroupAlphabet(url, a, b, c);
    var g := Group3(url, a, b, c);
    assert g[0] in g && g[1] in g && g[2] in g && g[3] in g;
  }

  lemma {:induction false} EncodedLength(url: bool, s: string)
    requires IsBytes(s)
    ensures |Encode(url, false, s)| == (4 * |s| + 2) / 3
  {
    if |s| > 2 {
      EncodedLength(url, s[3..]);
    }
  }

  lemma {:induction false} DropLineBreaksLength(t: string)
    ensures |DropLineBreaks(t)| <= |t| && (|DropLineBreaks(t)| == |t| ==> DropLineBreaks(t) == t)
  {
    if t != "" {
      DropLineBreaksLength(t[1..]);
      assert t == [t[0]] + t[1..];
    }
  }

  lemma NearHasNoLineBreaks(url: bool, t: string, s: string)
    requires IsBytes(s) && Near(url, t, Encode(url, false, s))
    ensures DropLineBreaks(t) == t
  {
    EncodedAlphabet(url, false, s);
    forall i | 0 <= i < |t| ensures DecodeDigit(url, t[i]).Some? {
      assert Encode(url, false, s)[i] in Encode(url, false, s);
    }
    NoLineBreaks(t);
  }
}
