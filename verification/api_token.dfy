/**
 The API token format: prefix, base64url body of 16 random bytes, checksum.
 The checksum function is the parameter `crc`.
 */
module ApiToken {
  import opened Wrappers
  import opened GoText
  import opened Base64

  const PREFIX := "ztk_"

  const RAW_LENGTH := 16

  function Checksum(raw: string, crc: string -> nat): string { Hex(crc(raw) % 0x100_0000, 6) }

  function Token(body: string, sum: string): string { PREFIX + body + "_" + sum }

  /** Generate, for the random bytes `raw`. */
  function Generate(raw: string, crc: string -> nat): string
    requires IsBytes(raw)
  {
    Token(Encode(true, false, raw), Checksum(raw, crc))
  }

  predicate IsWellFormed(s: string, crc: string -> nat) {
    PREFIX <= s &&
    var (body, sum, found) := CutLast(s[|PREFIX|..], '_');
    found && |body| == 22 && |sum| == 6 &&
    var raw := Decode(true, false, body);
    raw.Some? && |raw.value| == RAW_LENGTH && Checksum(raw.value, crc) == sum
  }

  lemma TokenParts(body: string, sum: string)
    requires '_' !in sum
    ensures PREFIX <= Token(body, sum) && CutLast(Token(body, sum)[|PREFIX|..], '_') == (body, sum, true)
  {
    assert Token(body, sum)[|PREFIX|..] == body + ['_'] + sum;
    CutLastAt(body, '_', sum);
  }

  /** `s` spells the token of `raw`, up to the bits the decoder ignores. */
  predicate Spells(s: string, raw: string, body: string, crc: string -> nat) {
    && IsBytes(raw) && |raw| == RAW_LENGTH
    && Near(true, body, Encode(true, false, raw)) && s == Token(body, Checksum(raw, crc))
  }

  lemma WellFormedSpells(s: string, crc: string -> nat) returns (raw: string, body: string)
    requires IsWellFormed(s, crc)
    ensures Spells(s, raw, body, crc)
  {
    var (text, sum, _) := CutLast(s[|PREFIX|..], '_');
    body := text;
    raw := Decode(true, false, body).value;
    DecodedIsNear(true, DropLineBreaks(body));
    EncodedLength(true, raw);
    DropLineBreaksLength(body);
    PartsToken(s, body, sum);
  }

  lemma PartsToken(s: string, body: string, sum: string)
    requires PREFIX <= s && s[|PREFIX|..] == body + ['_'] + sum
    ensures s == Token(body, sum)
  {
    assert s == PREFIX + s[|PREFIX|..];
    assert PREFIX + (body + ['_'] + sum) == Token(body, sum);
  }

  /** A token is well-formed if and only if it is a generated one, up to the four
      bits of its last body character that the decoder ignores. */
  lemma WellFormedIff(s: string, crc: string -> nat)
    ensures IsWellFormed(s, crc) <==> exists raw, body :: Spells(s, raw, body, crc)
  {
    if IsWellFormed(s, crc) {
      var raw, body := WellFormedSpells(s, crc);
    }
    if raw, body :| Spells(s, raw, body, crc) {
      NearIsWellFormed(raw, body, crc);
    }
  }

  lemma NearIsWellFormed(raw: string, body: string, crc: string -> nat)
    requires IsBytes(raw) && |raw| == RAW_LENGTH && Near(true, body, Encode(true, false, raw))
    ensures IsWellFormed(Token(body, Checksum(raw, crc)), crc)
  {
    NearHasNoLineBreaks(true, body, raw);
    NearDecodes(true, body, raw);
    EncodedLength(true, raw);
    TokenParts(body, Checksum(raw, crc));
  }

  /** The body `e` with other low bits in its last character. */
  function Variant(e: string, low: nat): (body: string)
    requires |e| == 22 && low < 16
    ensures |body| == 22
  {
    var d := DecodeDigit(true, e[21]);
    e[..21] + [EncodeDigit(true, (if d.Some? then d.value / 16 * 16 else 0) + low)]
  }

  /** The spellings of a secret, one for each value of the ignored bits. */
  function Spellings(raw: string, crc: string -> nat): (ss: seq<string>)
    requires IsBytes(raw) && |raw| == RAW_LENGTH
    ensures |ss| == 16
  {
    EncodedLength(true, raw);
    var e, sum := Encode(true, false, raw), Checksum(raw, crc);
    seq(16, low requires 0 <= low < 16 => Token(Variant(e, low), sum))
  }

  lemma VariantsDiffer(e: string, i: nat, j: nat)
    requires |e| == 22 && i < j < 16
    ensures Variant(e, i)[21] != Variant(e, j)[21]
  {
    var d := DecodeDigit(true, e[21]);
    var high := if d.Some? then d.value / 16 * 16 else 0;
    DigitRoundTrip(true, high + i);
    DigitRoundTrip(true, high + j);
  }

  lemma VariantIsNear(e: string, low: nat)
    requires |e| == 22 && DecodeDigit(true, e[21]).Some? && low < 16
    ensures Near(true, Variant(e, low), e)
  {
    DigitRoundTrip(true, DecodeDigit(true, e[21]).value / 16 * 16 + low);
  }

  lemma NearIsVariant(e: string, body: string) returns (low: nat)
    requires |e| == 22 && Near(true, body, e)
    ensures low < 16 && body == Variant(e, low)
  {
    low := DecodeDigit(true, body[21]).value % 16;
    DigitInverse(true, body[21]);
  }

  /** A secret has exactly sixteen accepted spellings, one of them generated. */
  lemma SixteenSpellings(raw: string, crc: string -> nat)
    requires IsBytes(raw) && |raw| == RAW_LENGTH
    ensures Generate(raw, crc) in Spellings(raw, crc)
    ensures forall i, j :: 0 <= i < j < 16 ==> Spellings(raw, crc)[i] != Spellings(raw, crc)[j]
    ensures forall s :: s in Spellings(raw, crc) <==> exists body :: Spells(s, raw, body, crc)
  {
    EncodedLength(true, raw);
    EncodedAlphabet(true, false, raw);
    var ss, e := Spellings(raw, crc), Encode(true, false, raw);
    assert e[21] in e;
    forall s ensures s in ss <==> exists body :: Spells(s, raw, body, crc) {
      SpellingIff(s, raw, crc);
    }
    assert Spells(Generate(raw, crc), raw, e, crc);
    forall i, j | 0 <= i < j < 16 ensures ss[i] != ss[j] {
      VariantsDiffer(e, i, j);
      SameToken(Variant(e, i), Variant(e, j), Checksum(raw, crc));
    }
  }

  lemma SpellingIff(s: string, raw: string, crc: string -> nat)
    requires IsBytes(raw) && |raw| == RAW_LENGTH
    ensures s in Spellings(raw, crc) <==> exists body :: Spells(s, raw, body, crc)
  {
    EncodedLength(true, raw);
    EncodedAlphabet(true, false, raw);
    var ss, e := Spellings(raw, crc), Encode(true, false, raw);
    assert e[21] in e;
    if s in ss {
      var low :| 0 <= low < 16 && s == ss[low];
      VariantIsNear(e, low);
      assert Spells(s, raw, Variant(e, low), crc);
    }
    if body :| Spells(s, raw, body, crc) {
      var low := NearIsVariant(e, body);
      assert s == ss[low];
    }
  }

  lemma SameToken(body: string, other: string, sum: string)
    requires |body| == |other| == 22 && body[21] != other[21]
    ensures Token(body, sum) != Token(other, sum)
  {
    assert Token(body, sum)[|PREFIX| + 21] == body[21] && Token(other, sum)[|PREFIX| + 21] == other[21];
  }

  /** Every generated token is well-formed, underscores in its body included. */
  lemma GeneratedIsWellFormed(raw: string, crc: string -> nat)
    requires IsBytes(raw) && |raw| == RAW_LENGTH
    ensures IsWellFormed(Generate(raw, crc), crc)
  {
    EncodedAlphabet(true, false, raw);
    EncodedLength(true, raw);
    var body := Encode(true, false, raw);
    assert body[|body| - 1] in body;
    NearIsWellFormed(raw, body, crc);
  }
}
