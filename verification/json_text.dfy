/**
 JSON text as Go writes and reads it: strings of any bytes, and objects whose
 members are all strings.  Bytes that are not UTF-8 come back as the replacement
 character, everything else as it was.
 */
module JsonText {
  import opened Wrappers
  import opened GoText

  // ---------- UTF-8 ----------

  predicate Within(c: char, lo: int, hi: int) { lo <= c as int <= hi }

  predicate IsTail(c: char) { Within(c, 0x80, 0xBF) }

  predicate LeadsThree(a: char, b: char) {
    || (a as int == 0xE0 && Within(b, 0xA0, 0xBF))
    || ((Within(a, 0xE1, 0xEC) || Within(a, 0xEE, 0xEF)) && IsTail(b))
    || (a as int == 0xED && Within(b, 0x80, 0x9F))
  }

  predicate LeadsFour(a: char, b: char) {
    || (a as int == 0xF0 && Within(b, 0x90, 0xBF))
    || (Within(a, 0xF1, 0xF3) && IsTail(b))
    || (a as int == 0xF4 && Within(b, 0x80, 0x8F))
  }

  /** The length of the encoded character at the start of `s`; zero if there is
      none there. */
  function RuneLength(s: string): (n: nat)
    ensures n <= |s| && n <= 4
  {
    if s == "" then 0
    else if Within(s[0], 0, 0x7F) then 1
    else if |s| >= 2 && Within(s[0], 0xC2, 0xDF) && IsTail(s[1]) then 2
    else if |s| >= 3 && LeadsThree(s[0], s[1]) && IsTail(s[2]) then 3
    else if |s| >= 4 && LeadsFour(s[0], s[1]) && IsTail(s[2]) && IsTail(s[3]) then 4
    else 0
  }

  /** U+FFFD. */
  const REPLACEMENT: string := [0xEF as char, 0xBF as char, 0xBD as char]

  /** The first character of a text, the replacement for a byte that is none. */
  function FirstRune(s: string): (r: string)
    requires s != ""
    ensures r != ""
  {
    if RuneLength(s) == 0 then REPLACEMENT else s[..RuneLength(s)]
  }

  function RuneStep(s: string): (n: nat)
    requires s != ""
    ensures 0 < n <= |s|
  {
    if RuneLength(s) == 0 then 1 else RuneLength(s)
  }

  /** What is left of a text after it has been JSON. */
  function Coerced(s: string): string
    decreases |s|
  {
    if s == "" then "" else FirstRune(s) + Coerced(s[RuneStep(s)..])
  }

  predicate IsUtf8(s: string)
    decreases |s|
  {
    s == "" || (RuneLength(s) > 0 && IsUtf8(s[RuneLength(s)..]))
  }

  /** Only the first characters decide how long the first one is. */
  lemma RuneIsLocal(s: string, x: string)
    requires RuneLength(s) > 0
    ensures RuneLength(s[..RuneLength(s)] + x) == RuneLength(s)
  {
  }

  /** Exactly UTF-8 survives. */
  lemma {:induction false} CoercedIff(s: string)
    ensures Coerced(s) == s <==> IsUtf8(s)
    decreases |s|
  {
    if s != "" {
      var n := RuneLength(s);
      if n == 0 {
        var t := Coerced(s);
        assert t[0] == REPLACEMENT[0] && t[1] == REPLACEMENT[1] && t[2] == REPLACEMENT[2];
        assert RuneLength(t) == 3;
      } else {
        CoercedIff(s[n..]);
        assert s == s[..n] + s[n..];
        if Coerced(s) == s {
          assert Coerced(s)[n..] == s[n..];
        }
      }
    }
  }

  /** Reading JSON text a second time loses nothing more. */
  lemma {:induction false} CoercedIsUtf8(s: string)
    ensures IsUtf8(Coerced(s))
    decreases |s|
  {
    if s != "" {
      var first, rest := FirstRune(s), Coerced(s[RuneStep(s)..]);
      CoercedIsUtf8(s[RuneStep(s)..]);
      assert RuneLength(first) == |first|;
      RuneIsLocal(first, rest);
      assert first[..|first|] == first && (first + rest)[|first|..] == rest;
    }
  }

  lemma {:induction false} AsciiIsUtf8(s: string)
    requires forall i :: 0 <= i < |s| ==> s[i] as int < 0x80
    ensures IsUtf8(s)
  {
    if s != "" {
      AsciiIsUtf8(s[1..]);
    }
  }

  // ---------- Writing strings ----------

  /** What is written for the first character of a text. */
  function Unit(s: string): (u: string)
    requires s != ""
    ensures u != ""
  {
    var c := s[0];
    if c == '"' || c == '\\' then ['\\', c]
    else if c as int == 8 then "\\b"
    else if c as int == 12 then "\\f"
    else if c == '\n' then "\\n"
    else if c == '\r' then "\\r"
    else if c == '\t' then "\\t"
    else if c as int < 0x20 || c in {'<', '>', '&'} then "\\u" + Hex(c as int, 4)
    else if RuneLength(s) == 0 then "\\ufffd"
    else if s[..RuneLength(s)] == EncodeRune(0x2028) then "\\u2028"
    else if s[..RuneLength(s)] == EncodeRune(0x2029) then "\\u2029"
    else s[..RuneLength(s)]
  }

  function Body(s: string): string
    decreases |s|
  {
    if s == "" then "" else Unit(s) + Body(s[RuneStep(s)..])
  }

  function Quote(s: string): string { "\"" + Body(s) + "\"" }

  // ---------- Reading strings ----------

  function HexValue(c: char): (v: Option<nat>)
    ensures v.Some? ==> v.value < 16
  {
    if IsDigit(c) then Some(c as int - '0' as int)
    else if 'a' <= c <= 'f' then Some(c as int - 'a' as int + 10)
    else if 'A' <= c <= 'F' then Some(c as int - 'A' as int + 10)
    else None
  }

  function HexFour(t: string): (v: Option<nat>)
    ensures v.Some? ==> |t| >= 4 && v.value < 0x1_0000
  {
    if |t| < 4 then None
    else
      var (a, b, c, d) := (HexValue(t[0]), HexValue(t[1]), HexValue(t[2]), HexValue(t[3]));
      if a.Some? && b.Some? && c.Some? && d.Some?
      then Some(((a.value * 16 + b.value) * 16 + c.value) * 16 + d.value) else None
  }

  predicate IsSurrogate(r: nat) { 0xD800 <= r < 0xE000 }

  /** The bytes of a character. */
  function EncodeRune(r: nat): (t: string)
    ensures t != ""
  {
    if r < 0x80 then [r as char]
    else if r < 0x800 then [(0xC0 + r / 0x40) as char, (0x80 + r % 0x40) as char]
    else if IsSurrogate(r) || r > 0x10_FFFF then REPLACEMENT
    else if r < 0x1_0000 then [(0xE0 + r / 0x1000) as char, (0x80 + r / 0x40 % 0x40) as char, (0x80 + r % 0x40) as char]
    else [(0xF0 + r / 0x4_0000) as char, (0x80 + r / 0x1000 % 0x40) as char, (0x80 + r / 0x40 % 0x40) as char, (0x80 + r % 0x40) as char]
  }

  /** What is encoded is one character of UTF-8 (section 4 of RFC 3629), whatever
      follows. */
  lemma RuneEncodes(r: nat, x: string)
    requires IsScalar(r)
    ensures RuneLength(EncodeRune(r) + x) == |EncodeRune(r)| == if r < 0x80 then 1 else if r < 0x800 then 2 else if r < 0x1_0000 then 3 else 4
  {
  }

  function ThreeBytes(a: int, b: int, c: int): int { (a - 0xE0) * 0x1000 + (b - 0x80) * 0x40 + (c - 0x80) }

  function FourBytes(a: int, b: int, c: int, d: int): int {
    (a - 0xF0) * 0x4_0000 + (b - 0x80) * 0x1000 + (c - 0x80) * 0x40 + (d - 0x80)
  }

  /** The code point of the character at the start of a text. */
  function RuneOf(s: string): int
    requires RuneLength(s) > 0
  {
    match RuneLength(s)
    case 1 => s[0] as int
    case 2 => (s[0] as int - 0xC0) * 0x40 + (s[1] as int - 0x80)
    case 3 => ThreeBytes(s[0] as int, s[1] as int, s[2] as int)
    case _ => FourBytes(s[0] as int, s[1] as int, s[2] as int, s[3] as int)
  }

  predicate IsScalar(r: int) { 0 <= r < 0xD800 || 0xE000 <= r <= 0x10_FFFF }

  lemma ThreeDigits(a: int, b: int, c: int)
    requires 0xE0 <= a <= 0xEF && 0x80 <= b <= 0xBF && 0x80 <= c <= 0xBF
    ensures var r := ThreeBytes(a, b, c); 0 <= r && a == 0xE0 + r / 0x1000 && b == 0x80 + r / 0x40 % 0x40 && c == 0x80 + r % 0x40
  {
    var high := (a - 0xE0) * 0x40 + (b - 0x80);
    assert ThreeBytes(a, b, c) / 0x40 == high && high % 0x40 == b - 0x80;
  }

  lemma FourDigits(a: int, b: int, c: int, d: int)
    requires 0xF0 <= a <= 0xF4 && 0x80 <= b <= 0xBF && 0x80 <= c <= 0xBF && 0x80 <= d <= 0xBF
    ensures var r := FourBytes(a, b, c, d);
            && 0 <= r && a == 0xF0 + r / 0x4_0000 && b == 0x80 + r / 0x1000 % 0x40 && c == 0x80 + r / 0x40 % 0x40 && d == 0x80 + r % 0x40
  {
    var r := FourBytes(a, b, c, d);
    var high := (a - 0xF0) * 0x1000 + (b - 0x80) * 0x40 + (c - 0x80);
    assert r / 0x40 == high && high % 0x40 == c - 0x80;
    assert r / 0x1000 == (a - 0xF0) * 0x40 + (b - 0x80);
  }

  /** Every character of UTF-8 encodes its code point. */
  lemma RuneDecodes(s: string)
    requires RuneLength(s) > 0
    ensures IsScalar(RuneOf(s)) && EncodeRune(RuneOf(s)) == s[..RuneLength(s)]
  {
    var a := s[0] as int;
    if RuneLength(s) == 3 {
      ThreeDigits(a, s[1] as int, s[2] as int);
    } else if RuneLength(s) == 4 {
      FourDigits(a, s[1] as int, s[2] as int, s[3] as int);
    }
  }

  /** The code point of an encoded code point is that code point. */
  lemma RuneComesBack(r: nat, x: string)
    requires IsScalar(r)
    ensures RuneLength(EncodeRune(r) + x) > 0 && RuneOf(EncodeRune(r) + x) == r
  {
    hide RuneLength, ThreeBytes, FourBytes;
    RuneEncodes(r, x);
    var t := EncodeRune(r);
    assert forall i :: 0 <= i < |t| ==> (t + x)[i] == t[i];
    TwoBack(r);
    ThreeBack(r);
    FourBack(r);
  }

  lemma TwoBack(r: nat)
    ensures (0xC0 + r / 0x40 - 0xC0) * 0x40 + (0x80 + r % 0x40 - 0x80) == r
  {
  }

  lemma ThreeBack(r: nat)
    ensures ThreeBytes(0xE0 + r / 0x1000, 0x80 + r / 0x40 % 0x40, 0x80 + r % 0x40) == r
  {
    assert r / 0x1000 == r / 0x40 / 0x40;
  }

  lemma FourBack(r: nat)
    ensures FourBytes(0xF0 + r / 0x4_0000, 0x80 + r / 0x1000 % 0x40, 0x80 + r / 0x40 % 0x40, 0x80 + r % 0x40) == r
  {
    assert r / 0x1000 == r / 0x40 / 0x40 && r / 0x4_0000 == r / 0x1000 / 0x40;
  }

  datatype Read = Bad | Char(text: string, size: nat)

  /** A `\u` escape; two of them may be one character. */
  function ReadEscape(t: string): (r: Read)
    ensures r.Char? ==> 0 < r.size <= |t|
  {
    if |t| < 2 then Bad
    else
      match HexFour(t[2..])
      case None => Bad
      case Some(high) =>
        var low := if |t| >= 8 && t[6..8] == "\\u" then HexFour(t[8..]) else None;
        if high < 0xDC00 && IsSurrogate(high) && low.Some? && IsSurrogate(low.value) && low.value >= 0xDC00
        then Char(EncodeRune(0x1_0000 + (high - 0xD800) * 0x400 + (low.value - 0xDC00)), 12)
        else Char(EncodeRune(high), 6)
  }

  /** One character of a string; `t` does not start with the closing quote. */
  function ReadChar(t: string): (r: Read)
    requires t != ""
    ensures r.Char? ==> 0 < r.size <= |t|
  {
    if t[0] == '\\' then
      if |t| < 2 then Bad
      else
        match t[1]
        case '"' => Char("\"", 2)
        case '\\' => Char("\\", 2)
        case '/' => Char("/", 2)
        case 'b' => Char([8 as char], 2)
        case 'f' => Char([12 as char], 2)
        case 'n' => Char("\n", 2)
        case 'r' => Char("\r", 2)
        case 't' => Char("\t", 2)
        case 'u' => ReadEscape(t)
        case _ => Bad
    else if t[0] < ' ' then Bad
    else Char(FirstRune(t), RuneStep(t))
  }

  /** The rest of a string and what follows its closing quote. */
  function ReadBody(t: string): (r: Option<(string, string)>)
    ensures r.Some? ==> |r.value.1| < |t|
    decreases |t|
  {
    if t == "" then None
    else if t[0] == '"' then Some(("", t[1..]))
    else
      match ReadChar(t)
      case Bad => None
      case Char(text, size) =>
        match ReadBody(t[size..])
        case None => None
        case Some((more, rest)) => Some((text + more, rest))
  }

  function ReadString(t: string): (r: Option<(string, string)>)
    ensures r.Some? ==> |r.value.1| < |t|
  {
    if t != "" && t[0] == '"' then ReadBody(t[1..]) else None
  }

  lemma HexDigitReads(v: nat)
    requires v < 16
    ensures HexValue(HexDigit(v)) == Some(v)
  {
  }

  lemma HexReads(v: nat, x: string)
    requires v < 0x80
    ensures |Hex(v, 4)| == 4 && HexFour(Hex(v, 4) + x) == Some(v)
  {
    hide Hex, HexDigit, HexValue, HexFour;
    HexOfByte(v);
    HexDigitReads(0);
    HexDigitReads(v / 16);
    HexDigitReads(v % 16);
    FourRead(HexDigit(0), HexDigit(v / 16), HexDigit(v % 16), v / 16, v % 16, x);
  }

  lemma FourRead(zero: char, high: char, low: char, h: nat, l: nat, x: string)
    requires HexValue(zero) == Some(0) && HexValue(high) == Some(h) && HexValue(low) == Some(l)
    ensures HexFour([zero, zero, high, low] + x) == Some(h * 16 + l)
  {
    var t := [zero, zero, high, low] + x;
    assert t[0] == t[1] == zero && t[2] == high && t[3] == low;
  }

  lemma HexStep(v: nat, n: nat)
    requires n > 0
    ensures Hex(v, n) == Hex(v / 16, n - 1) + [HexDigit(v % 16)]
  {
  }

  lemma HexOfByte(v: nat)
    requires v < 0x80
    ensures Hex(v, 4) == [HexDigit(0), HexDigit(0), HexDigit(v / 16), HexDigit(v % 16)]
  {
    hide Hex, HexDigit;
    var w := v / 16;
    assert w / 16 == 0 && w % 16 == w;
    HexStep(v, 4);
    HexStep(w, 3);
    HexStep(0, 2);
    HexStep(0, 1);
    assert Hex(0, 0) == "";
  }

  /** An escape of four digits, other than half of a pair. */
  lemma EscapeReads(digits: string, v: nat, x: string)
    requires |digits| == 4 && HexFour(digits + x) == Some(v) && !IsSurrogate(v)
    ensures ReadChar("\\u" + digits + x) == Char(EncodeRune(v), 6)
  {
    var t := "\\u" + digits + x;
    assert t[2..] == digits + x;
  }

  lemma UnitReads(s: string, x: string)
    requires s != ""
    ensures Unit(s)[0] != '"' && ReadChar(Unit(s) + x) == Char(FirstRune(s), |Unit(s)|)
  {
    var c := s[0];
    if c in {'"', '\\', 8 as char, 12 as char, '\n', '\r', '\t'} {
    } else if c as int < 0x20 || c in {'<', '>', '&'} {
      HexReads(c as int, x);
      EscapeReads(Hex(c as int, 4), c as int, x);
      assert Unit(s) + x == "\\u" + Hex(c as int, 4) + x;
    } else {
      PlainUnitReads(s, x);
    }
  }

  /** Text that is copied, and the three characters outside ASCII that are not. */
  lemma PlainUnitReads(s: string, x: string)
    requires s != "" && s[0] as int >= 0x20 && s[0] !in {'"', '\\', '<', '>', '&'}
    ensures Unit(s)[0] != '"' && ReadChar(Unit(s) + x) == Char(FirstRune(s), |Unit(s)|)
  {
    var u := Unit(s);
    if RuneLength(s) == 0 {
      FixedEscape("fffd", 0xFFFD, x);
    } else if s[..RuneLength(s)] == EncodeRune(0x2028) {
      FixedEscape("2028", 0x2028, x);
    } else if s[..RuneLength(s)] == EncodeRune(0x2029) {
      FixedEscape("2029", 0x2029, x);
    } else {
      RuneIsLocal(s, x);
      assert (u + x)[..|u|] == u;
    }
  }

  lemma FixedEscape(digits: string, v: nat, x: string)
    requires (digits, v) in {("fffd", 0xFFFD), ("2028", 0x2028), ("2029", 0x2029)}
    ensures ReadChar("\\u" + digits + x) == Char(EncodeRune(v), 6)
  {
    var t := digits + x;
    assert t[0] == digits[0] && t[1] == digits[1] && t[2] == digits[2] && t[3] == digits[3];
    EscapeReads(digits, v, x);
  }

  lemma {:induction false} BodyReads(s: string, rest: string)
    ensures ReadBody(Body(s) + "\"" + rest) == Some((Coerced(s), rest))
    decreases |s|
  {
    if s == "" {
      assert Body(s) + "\"" + rest == "\"" + rest;
    } else {
      hide Unit, ReadChar, FirstRune, RuneLength;
      var u, s' := Unit(s), s[RuneStep(s)..];
      var x := Body(s') + "\"" + rest;
      BodyReads(s', rest);
      UnitReads(s, x);
      assert Body(s) + "\"" + rest == u + x;
      assert (u + x)[|u|..] == x;
    }
  }

  /** A string written and read is the string, as far as it is UTF-8. */
  lemma QuoteReads(s: string, rest: string)
    ensures ReadString(Quote(s) + rest) == Some((Coerced(s), rest))
  {
    hide Body, ReadBody;
    BodyReads(s, rest);
    assert (Quote(s) + rest)[1..] == Body(s) + "\"" + rest;
  }

  lemma QuoteStarts(s: string)
    ensures |Quote(s)| >= 1 && Quote(s)[0] == '"'
  {
  }

  // ---------- Objects of strings ----------

  datatype Member = Member(key: string, value: string)

  function MemberText(m: Member): string { Quote(m.key) + ":" + Quote(m.value) }

  function MembersText(ms: seq<Member>): string
    requires ms != []
  {
    MemberText(ms[0]) + if |ms| == 1 then "" else "," + MembersText(ms[1..])
  }

  function ObjectText(ms: seq<Member>): string {
    "{" + (if ms == [] then "" else MembersText(ms)) + "}"
  }

  lemma {:induction false} HexIsBytes(v: nat, n: nat)
    ensures IsBytes(Hex(v, n))
  {
    if n > 0 {
      HexIsBytes(v / 16, n - 1);
    }
  }

  lemma {:induction false} BodyIsBytes(s: string)
    requires IsBytes(s)
    ensures IsBytes(Body(s))
    decreases |s|
  {
    if s != "" {
      HexIsBytes(s[0] as int, 4);
      BodyIsBytes(s[RuneStep(s)..]);
    }
  }

  lemma MemberIsBytes(m: Member)
    requires IsBytes(m.key) && IsBytes(m.value)
    ensures IsBytes(MemberText(m))
  {
    hide Body;
    BodyIsBytes(m.key);
    BodyIsBytes(m.value);
  }

  lemma {:induction false} MembersAreBytes(ms: seq<Member>)
    requires ms != [] && forall m <- ms :: IsBytes(m.key) && IsBytes(m.value)
    ensures IsBytes(MembersText(ms))
    decreases |ms|
  {
    hide MemberText;
    MemberIsBytes(ms[0]);
    if |ms| > 1 {
      MembersAreBytes(ms[1..]);
    }
  }

  lemma ObjectIsBytes(ms: seq<Member>)
    requires forall m <- ms :: IsBytes(m.key) && IsBytes(m.value)
    ensures IsBytes(ObjectText(ms))
  {
    if ms != [] {
      MembersAreBytes(ms);
    }
  }

  function SkipSpace(t: string): (r: string)
    ensures |r| <= |t|
  {
    if t != "" && t[0] in {' ', '\t', '\n', '\r'} then SkipSpace(t[1..]) else t
  }

  function ReadMember(t: string): (r: Option<(Member, string)>)
    ensures r.Some? ==> |r.value.1| < |t|
  {
    match ReadString(SkipSpace(t))
    case None => None
    case Some((key, afterKey)) =>
      var colon := SkipSpace(afterKey);
      if colon == "" || colon[0] != ':' then None
      else
        match ReadString(SkipSpace(colon[1..]))
        case None => None
        case Some((value, rest)) => Some((Member(key, value), rest))
  }

  function ReadMembers(t: string): (r: Option<(seq<Member>, string)>)
    decreases |t|
  {
    match ReadMember(t)
    case None => None
    case Some((m, afterMember)) =>
      var rest := SkipSpace(afterMember);
      if rest == "" then None
      else if rest[0] == '}' then Some(([m], rest[1..]))
      else if rest[0] != ',' then None
      else
        match ReadMembers(rest[1..])
        case None => None
        case Some((ms, end)) => Some(([m] + ms, end))
  }

  /** The members of an object all of whose members are strings. */
  function ReadObject(t: string): Option<seq<Member>> {
    var open_ := SkipSpace(t);
    if open_ == "" || open_[0] != '{' then None
    else
      var first := SkipSpace(open_[1..]);
      if first != "" && first[0] == '}' then (if SkipSpace(first[1..]) == "" then Some([]) else None)
      else
        match ReadMembers(first)
        case None => None
        case Some((ms, end)) => if SkipSpace(end) == "" then Some(ms) else None
  }

  function CoercedMembers(ms: seq<Member>): (cs: seq<Member>)
    ensures |cs| == |ms| && forall i :: 0 <= i < |ms| ==> cs[i] == Member(Coerced(ms[i].key), Coerced(ms[i].value))
  {
    seq(|ms|, i requires 0 <= i < |ms| => Member(Coerced(ms[i].key), Coerced(ms[i].value)))
  }

  lemma MemberReads(m: Member, rest: string)
    ensures ReadMember(MemberText(m) + rest) == Some((Member(Coerced(m.key), Coerced(m.value)), rest))
  {
    hide Quote, ReadString;
    QuoteStarts(m.key);
    QuoteStarts(m.value);
    var afterKey := ":" + Quote(m.value) + rest;
    QuoteReads(m.key, afterKey);
    QuoteReads(m.value, rest);
    assert MemberText(m) + rest == Quote(m.key) + afterKey;
    assert afterKey[1..] == Quote(m.value) + rest;
    assert (Quote(m.value) + rest)[0] == '"' && (Quote(m.key) + afterKey)[0] == '"';
  }

  lemma {:induction false} MembersRead(ms: seq<Member>)
    requires ms != []
    ensures ReadMembers(MembersText(ms) + "}") == Some((CoercedMembers(ms), ""))
    decreases |ms|
  {
    hide MemberText, ReadMember;
    if |ms| == 1 {
      MemberReads(ms[0], "}");
      assert MembersText(ms) + "}" == MemberText(ms[0]) + "}";
      assert [CoercedMembers(ms)[0]] == CoercedMembers(ms);
    } else {
      var rest := "," + MembersText(ms[1..]) + "}";
      MemberReads(ms[0], rest);
      MembersRead(ms[1..]);
      assert MembersText(ms) + "}" == MemberText(ms[0]) + rest;
      assert rest[1..] == MembersText(ms[1..]) + "}";
      assert [CoercedMembers(ms)[0]] + CoercedMembers(ms[1..]) == CoercedMembers(ms);
    }
  }

  /** An object of strings written and read, member by member. */
  lemma ObjectReads(ms: seq<Member>)
    ensures ReadObject(ObjectText(ms)) == Some(CoercedMembers(ms))
  {
    hide MembersText, ReadMembers;
    var t := ObjectText(ms);
    if ms == [] {
      assert t == "{}" && t[1..] == "}";
      assert CoercedMembers(ms) == [];
    } else {
      MembersRead(ms);
      MembersStart(ms);
      assert t[1..] == MembersText(ms) + "}";
      BracesRead(t, CoercedMembers(ms));
    }
  }

  lemma BracesRead(t: string, ms: seq<Member>)
    requires |t| > 1 && t[0] == '{' && t[1] == '"' && ReadMembers(t[1..]) == Some((ms, ""))
    ensures ReadObject(t) == Some(ms)
  {
    hide ReadMembers;
    assert SkipSpace(t) == t && SkipSpace(t[1..]) == t[1..];
  }

  lemma MembersStart(ms: seq<Member>)
    requires ms != []
    ensures |MembersText(ms)| >= 1 && MembersText(ms)[0] == '"'
  {
    QuoteStarts(ms[0].key);
  }
}
