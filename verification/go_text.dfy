/**
 Byte strings and the few text functions the link printer and parser share.  A
 Go string is a sequence of bytes: a `string` whose characters are all below 256.
 */
module GoText {
  import opened Wrappers

  predicate IsBytes(s: string) {
    forall i :: 0 <= i < |s| ==> s[i] as int < 256
  }

  predicate IsLower(c: char) { 'a' <= c <= 'z' }
  predicate IsUpper(c: char) { 'A' <= c <= 'Z' }
  predicate IsDigit(c: char) { '0' <= c <= '9' }
  predicate IsAlnum(c: char) { IsLower(c) || IsUpper(c) || IsDigit(c) }

  /** ASCII white space, as trimmed from link text. */
  predicate IsSpace(c: char) { c in {' ', '\t', '\n', '\r', 11 as char, 12 as char} }

  /** Splits at the first `c`; without one, everything is before. */
  function Cut(s: string, c: char): (r: (string, string, bool))
    ensures r.2 <==> c in s
    ensures c !in r.0 && |r.0| <= |s|
    ensures s == if r.2 then r.0 + [c] + r.1 else r.0
    ensures !r.2 ==> r.1 == ""
  {
    if s == "" then ("", "", false)
    else if s[0] == c then ("", s[1..], true)
    else
      var (before, after, found) := Cut(s[1..], c);
      ([s[0]] + before, after, found)
  }

  lemma {:induction false} CutAt(p: string, c: char, q: string)
    requires c !in p
    ensures Cut(p + [c] + q, c) == (p, q, true)
  {
    if p == "" {
      assert p + [c] + q == [c] + q;
    } else {
      assert (p + [c] + q)[1..] == p[1..] + [c] + q;
      CutAt(p[1..], c, q);
      assert [p[0]] + p[1..] == p;
    }
  }

  lemma CutBytes(s: string, c: char)
    requires IsBytes(s)
    ensures IsBytes(Cut(s, c).0) && IsBytes(Cut(s, c).1)
  {
    hide Cut;
    var (before, after, found) := Cut(s, c);
    var from := |s| - |after|;
    assert s[from..] == after;
    forall i | 0 <= i < |after| ensures after[i] as int < 256 {
      assert after[i] == s[from..][i] == s[from + i];
    }
    forall i | 0 <= i < |before| ensures before[i] as int < 256 {
      assert before[i] == s[i];
    }
  }

  /** Splits at the last `c`; without one, everything is after. */
  function CutLast(s: string, c: char): (r: (string, string, bool))
    ensures r.2 <==> c in s
    ensures c !in r.1
    ensures s == if r.2 then r.0 + [c] + r.1 else r.1
    ensures !r.2 ==> r.0 == ""
  {
    if s == "" then ("", "", false)
    else
      var n := |s| - 1;
      if s[n] == c then (s[..n], "", true)
      else
        var (before, after, found) := CutLast(s[..n], c);
        (before, after + [s[n]], found)
  }

  lemma {:induction false} CutLastAt(p: string, c: char, q: string)
    requires c !in q
    ensures CutLast(p + [c] + q, c) == (p, q, true)
  {
    var s := p + [c] + q;
    if q != "" {
      assert s[..|s| - 1] == p + [c] + q[..|q| - 1];
      CutLastAt(p, c, q[..|q| - 1]);
      assert q[..|q| - 1] + [q[|q| - 1]] == q;
    } else {
      assert s[..|s| - 1] == p;
    }
  }

  /** The ASCII blanks: tab, line feed, vertical tab, form feed, carriage return
      and space. */
  lemma SpaceIs(c: char)
    ensures IsSpace(c) <==> 9 <= c as int <= 13 || c == ' '
  {
  }

  function TrimLeft(s: string): string {
    if s != "" && IsSpace(s[0]) then TrimLeft(s[1..]) else s
  }

  function TrimRight(s: string): string {
    if s != "" && IsSpace(s[|s| - 1]) then TrimRight(s[..|s| - 1]) else s
  }

  function TrimSpace(s: string): string { TrimRight(TrimLeft(s)) }

  function ToLowerChar(c: char): char {
    if IsUpper(c) then (c as int + 32) as char else c
  }

  function ToLower(s: string): (r: string)
    ensures |r| == |s| && forall i :: 0 <= i < |s| ==> r[i] == ToLowerChar(s[i])
  {
    seq(|s|, i requires 0 <= i < |s| => ToLowerChar(s[i]))
  }

  /** Byte-wise lexicographic order of strings. */
  predicate Less(a: string, b: string) {
    if b == "" then false
    else if a == "" then true
    else a[0] < b[0] || (a[0] == b[0] && Less(a[1..], b[1..]))
  }

  // ---------- Hexadecimal numbers ----------

  function HexDigit(v: nat): char
    requires v < 16
  {
    if v < 10 then ('0' as int + v) as char else ('a' as int + v - 10) as char
  }

  /** The low `n` hexadecimal digits of `v`, zero-padded. */
  function Hex(v: nat, n: nat): (t: string)
    ensures |t| == n && '_' !in t
  {
    if n == 0 then "" else Hex(v / 16, n - 1) + [HexDigit(v % 16)]
  }

  // ---------- Decimal numbers ----------

  function DigitChar(d: nat): char
    requires d < 10
  {
    ('0' as int + d) as char
  }

  function Itoa(n: nat): (s: string)
    ensures s != "" && forall i :: 0 <= i < |s| ==> IsDigit(s[i])
  {
    if n < 10 then [DigitChar(n)] else Itoa(n / 10) + [DigitChar(n % 10)]
  }

  /** Digits only; the empty text is an error. */
  function Atoi(s: string): Option<nat> {
    if s == "" then None
    else
      var n := |s| - 1;
      if !IsDigit(s[n]) then None
      else
        var d := s[n] as int - '0' as int;
        if n == 0 then Some(d)
        else
          match Atoi(s[..n])
          case None => None
          case Some(hi) => Some(10 * hi + d)
  }

  lemma {:induction false} AtoiItoa(n: nat)
    ensures Atoi(Itoa(n)) == Some(n)
  {
    if n >= 10 {
      AtoiItoa(n / 10);
      assert Itoa(n)[..|Itoa(n)| - 1] == Itoa(n / 10);
    }
  }
}
