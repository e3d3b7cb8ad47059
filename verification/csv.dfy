/**
 Comma-separated lists: splitting with trimming, and joining.
 */
module Csv {
  import opened GoText

  function Split(s: string, sep: char): seq<string>
    decreases |s|
  {
    var (first, rest, more) := Cut(s, sep);
    if more then [first] + Split(rest, sep) else [first]
  }

  function Join(parts: seq<string>, sep: char): string {
    if parts == [] then ""
    else if |parts| == 1 then parts[0]
    else parts[0] + [sep] + Join(parts[1..], sep)
  }

  /** Trims every part and drops the empty ones. */
  function TrimAll(parts: seq<string>): seq<string> {
    if parts == [] then []
    else
      var head, tail := TrimSpace(parts[0]), TrimAll(parts[1..]);
      if head == "" then tail else [head] + tail
  }

  /** splitAndTrimCSV, also the ALPN splitter of the link parser. */
  function SplitCsv(s: string): seq<string> {
    TrimAll(Split(s, ','))
  }

  /** The loop of splitAndTrimCSV. */
  method SplitAndTrim(s: string) returns (out: seq<string>)
    ensures out == SplitCsv(s)
  {
    var parts := Split(s, ',');
    out := [];
    for i := 0 to |parts|
      invariant out + TrimAll(parts[i..]) == TrimAll(parts)
    {
      var part := TrimSpace(parts[i]);
      assert parts[i..][1..] == parts[i + 1..];
      if part != "" {
        out := out + [part];
      }
    }
  }

  /** A part that survives splitting as it is. */
  predicate IsToken(t: string) {
    t != "" && ',' !in t && TrimSpace(t) == t
  }

  predicate AllTokens(ts: seq<string>) {
    forall i :: 0 <= i < |ts| ==> IsToken(ts[i])
  }

  lemma {:induction false} SplitJoin(ts: seq<string>, sep: char)
    requires ts != [] && forall i :: 0 <= i < |ts| ==> sep !in ts[i]
    ensures Split(Join(ts, sep), sep) == ts
  {
    if |ts| == 1 {
      assert Cut(ts[0], sep) == (ts[0], "", false);
    } else {
      CutAt(ts[0], sep, Join(ts[1..], sep));
      SplitJoin(ts[1..], sep);
    }
  }

  lemma {:induction false} TrimAllTokens(ts: seq<string>)
    requires AllTokens(ts)
    ensures TrimAll(ts) == ts
  {
    if ts != [] {
      TrimAllTokens(ts[1..]);
    }
  }

  /** Joining tokens and splitting again gives the same tokens. */
  lemma SplitCsvJoin(ts: seq<string>)
    requires AllTokens(ts)
    ensures SplitCsv(Join(ts, ',')) == ts
  {
    if ts == [] {
      assert Split("", ',') == [""];
      assert TrimAll([""]) == TrimAll([""][1..]);
    } else {
      SplitJoin(ts, ',');
      TrimAllTokens(ts);
    }
  }

  lemma {:induction false} TrimIdempotent(s: string)
    ensures TrimSpace(TrimSpace(s)) == TrimSpace(s)
    ensures forall c <- TrimSpace(s) :: c in s
  {
    TrimLeftShape(s);
    TrimRightShape(TrimLeft(s));
    var t := TrimSpace(s);
    if t != "" {
      assert t[0] == TrimLeft(s)[0];
    }
  }

  lemma TrimLeftShape(s: string)
    ensures TrimLeft(s) == "" || !IsSpace(TrimLeft(s)[0])
    ensures forall c <- TrimLeft(s) :: c in s
  {
  }

  lemma TrimRightShape(s: string)
    ensures TrimRight(s) == "" || !IsSpace(TrimRight(s)[|TrimRight(s)| - 1])
    ensures TrimRight(s) <= s
  {
  }

  lemma {:induction false} SplitHasNoSep(s: string, sep: char)
    ensures forall p <- Split(s, sep) :: sep !in p
    decreases |s|
  {
    var (first, rest, more) := Cut(s, sep);
    if more {
      SplitHasNoSep(rest, sep);
    }
  }

  lemma {:induction false} TrimAllMakesTokens(parts: seq<string>)
    requires forall p <- parts :: ',' !in p
    ensures AllTokens(TrimAll(parts))
  {
    if parts != [] {
      TrimIdempotent(parts[0]);
      TrimAllMakesTokens(parts[1..]);
    }
  }

  /** Splitting always yields tokens. */
  lemma SplitCsvTokens(s: string)
    ensures AllTokens(SplitCsv(s))
  {
    SplitHasNoSep(s, ',');
    TrimAllMakesTokens(Split(s, ','));
  }
}
