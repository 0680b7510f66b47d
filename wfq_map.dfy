/** The WFQ priority map (WFQmap): sixteen 16-bit band numbers, one per packet priority,
    written to a stream as decimal numbers separated by single spaces and read back from one
    as sixteen whitespace-separated unsigned numbers. */
module WfqMap {
  import opened Common

  /** A uint16 band number. */
  type Band = b: nat | b < 0x10000

  /** The number of entries of a WFQmap. */
  const MapSize: nat := 16

  // ---------------------------------------------------------------- decimal text

  predicate IsDigit(c: char)
  {
    '0' <= c <= '9'
  }

  /** The characters an input stream skips before a number. */
  predicate IsSpace(c: char)
  {
    c == ' ' || c == '\t' || c == '\n' || c == '\r' || c == '\U{B}' || c == '\U{C}'
  }

  function DigitChar(d: nat): (c: char)
    requires d < 10
    ensures IsDigit(c) && DigitValue(c) == d
  {
    ['0', '1', '2', '3', '4', '5', '6', '7', '8', '9'][d]
  }

  function DigitValue(c: char): nat
    requires IsDigit(c)
  {
    (c as int - '0' as int) as nat
  }

  /** The decimal digits of n, without leading zeros. */
  function Decimal(n: nat): (s: string)
    ensures |s| > 0 && forall k :: 0 <= k < |s| ==> IsDigit(s[k])
  {
    if n < 10 then [DigitChar(n)] else Decimal(n / 10) + [DigitChar(n % 10)]
  }

  /** The value of a run of decimal digits. */
  function DigitsValue(ds: string): nat
    requires forall k :: 0 <= k < |ds| ==> IsDigit(ds[k])
  {
    if ds == [] then 0 else DigitsValue(ds[..|ds| - 1]) * 10 + DigitValue(ds[|ds| - 1])
  }

  lemma {:induction false} DecimalValue(n: nat)
    ensures DigitsValue(Decimal(n)) == n
  {
    if n >= 10 {
      var s := Decimal(n);
      assert s[..|s| - 1] == Decimal(n / 10);
      DecimalValue(n / 10);
    }
  }

  // ---------------------------------------------------------------- serialising (operator<<)

  /** operator<<: every entry but the last followed by one space, then the last entry. */
  function Join(m: seq<Band>): (s: string)
    requires |m| > 0
  {
    if |m| == 1 then Decimal(m[0]) else Decimal(m[0]) + " " + Join(m[1..])
  }

  /** The text operator<< writes for a WFQmap. */
  function Serialize(m: seq<Band>): (s: string)
    requires |m| == MapSize
    ensures |s| > 0 && IsDigit(s[0]) && IsDigit(s[|s| - 1])
  {
    JoinEnds(m);
    Join(m)
  }

  lemma {:induction false} JoinEnds(m: seq<Band>)
    requires |m| > 0
    ensures var s := Join(m); |s| > 0 && IsDigit(s[0]) && IsDigit(s[|s| - 1])
  {
    if |m| > 1 {
      JoinEnds(m[1..]);
    }
  }

  // ---------------------------------------------------------------- parsing (operator>>)

  /** The longest run of digits at the head of s. */
  function DigitPrefix(s: string): (ds: string)
    ensures |ds| <= |s| && ds == s[..|ds|]
    ensures forall k :: 0 <= k < |ds| ==> IsDigit(ds[k])
    ensures |ds| == |s| || !IsDigit(s[|ds|])
  {
    if s != [] && IsDigit(s[0]) then [s[0]] + DigitPrefix(s[1..]) else []
  }

  /** The digits at the head of t as a band: None when there are none or their value does
      not fit 16 bits, else Some((band, the text after the digits)). */
  function ReadDigits(t: string): (r: Option<(Band, string)>)
  {
    var ds := DigitPrefix(t);
    if ds == [] then None
    else
      var v := DigitsValue(ds);
      if v < 0x10000 then Some((v, t[|ds|..])) else None
  }

  /** One `is >> band` on a uint16: skip whitespace, then read the digits. */
  function ReadBand(s: string): (r: Option<(Band, string)>)
  {
    if s != [] && IsSpace(s[0]) then ReadBand(s[1..]) else ReadDigits(s)
  }

  /** n successive reads: the values read and the rest, or None when one of them fails. */
  function ParseBands(s: string, n: nat): (r: Option<(seq<Band>, string)>)
    ensures r.Some? ==> |r.value.0| == n
  {
    if n == 0 then Some(([], s))
    else
      match ParseBands(s, n - 1)
      case None => None
      case Some((bs, rest)) =>
        match ReadBand(rest)
        case None => None
        case Some((b, rest')) => Some((bs + [b], rest'))
  }

  /** operator>> on a text: the sixteen bands it reads, or None for the fatal error. */
  function Parse(s: string): (r: Option<(seq<Band>, string)>)
    ensures r.Some? ==> |r.value.0| == MapSize
  {
    ParseBands(s, MapSize)
  }

  /** Whitespace before a token is skipped. */
  lemma {:induction false} ReadBandSkips(ws: string, t: string)
    requires forall k :: 0 <= k < |ws| ==> IsSpace(ws[k])
    requires t == [] || !IsSpace(t[0])
    ensures ReadBand(ws + t) == ReadDigits(t)
  {
    if ws != [] {
      assert (ws + t)[1..] == ws[1..] + t;
      ReadBandSkips(ws[1..], t);
    } else {
      assert ws + t == t;
    }
  }

  lemma {:induction false} DigitPrefixStops(ds: string, t: string)
    requires forall k :: 0 <= k < |ds| ==> IsDigit(ds[k])
    requires t == [] || !IsDigit(t[0])
    ensures DigitPrefix(ds + t) == ds
  {
    if ds != [] {
      assert (ds + t)[1..] == ds[1..] + t;
      DigitPrefixStops(ds[1..], t);
    } else {
      assert ds + t == t;
    }
  }

  /** Reading after optional whitespace returns the band written in decimal and stops at the
      next separator. */
  lemma ReadBandDecimal(ws: string, v: Band, t: string)
    requires forall k :: 0 <= k < |ws| ==> IsSpace(ws[k])
    requires t == [] || !IsDigit(t[0])
    ensures ReadBand(ws + Decimal(v) + t) == Some((v, t))
  {
    var d := Decimal(v);
    assert !IsSpace(d[0]);
    assert ws + d + t == ws + (d + t);
    ReadBandSkips(ws, d + t);
    DigitPrefixStops(d, t);
    DecimalValue(v);
    assert (d + t)[|d|..] == t;
  }

  /** The text after the first n entries of a written map: a separator and the rest, or
      nothing once all entries are read. */
  function After(m: seq<Band>, n: nat): string
    requires 0 < |m| && n <= |m|
  {
    if n == |m| then "" else if n == 0 then Join(m) else " " + Join(m[n..])
  }

  /** A written map from entry n on: that entry, then a separator and the rest if any. */
  lemma JoinFrom(m: seq<Band>, n: nat)
    requires n < |m|
    ensures Join(m[n..]) == Decimal(m[n]) + (if n + 1 == |m| then "" else " " + Join(m[n + 1..]))
  {
    assert m[n..][0] == m[n];
    if n + 1 < |m| {
      assert m[n..][1..] == m[n + 1..];
    }
  }

  /** The text after n entries is optional whitespace, entry n, and the text after n + 1. */
  lemma AfterSplit(m: seq<Band>, n: nat)
    requires n < |m|
    ensures After(m, n) == (if n == 0 then "" else " ") + Decimal(m[n]) + After(m, n + 1)
  {
    JoinFrom(m, n);
    if n == 0 {
      assert m[0..] == m;
    }
  }

  /** The next read from the rest of a written map returns its next entry. */
  lemma ReadNext(m: seq<Band>, n: nat, here: string, next: string)
    requires n < |m| && here == After(m, n) && next == After(m, n + 1)
    ensures ReadBand(here) == Some((m[n], next))
  {
    AfterSplit(m, n);
    var ws: string := if n == 0 then "" else " ";
    assert next == [] || next[0] == ' ';
    ReadBandDecimal(ws, m[n], next);
  }

  /** n reads along a chain of texts, each read returning the next band and the next text. */
  lemma {:induction false} ParseChain(bs: seq<Band>, rs: seq<string>, n: nat)
    requires n < |rs| && n <= |bs|
    requires forall k :: 0 <= k < n ==> ReadBand(rs[k]) == Some((bs[k], rs[k + 1]))
    ensures ParseBands(rs[0], n) == Some((bs[..n], rs[n]))
  {
    if n > 0 {
      ParseChain(bs, rs, n - 1);
      assert ReadBand(rs[n - 1]) == Some((bs[n - 1], rs[n]));
      assert bs[..n - 1] + [bs[n - 1]] == bs[..n];
    }
  }

  /** Reading n entries of a written map gives those entries. */
  lemma ParseJoinPrefix(m: seq<Band>, n: nat)
    requires 0 < |m| && n <= |m|
    ensures ParseBands(Join(m), n) == Some((m[..n], After(m, n)))
  {
    var rs := seq(|m| + 1, k requires 0 <= k <= |m| => After(m, k));
    forall k | 0 <= k < n ensures ReadBand(rs[k]) == Some((m[k], rs[k + 1])) {
      ReadNext(m, k, rs[k], rs[k + 1]);
    }
    assert rs[0] == Join(m);
    ParseChain(m, rs, n);
  }

  /** Writing then reading a WFQmap gives the map back and consumes the whole text. */
  lemma ParseSerialize(m: seq<Band>)
    requires |m| == MapSize
    ensures Parse(Serialize(m)) == Some((m, ""))
  {
    ParseJoinPrefix(m, |m|);
    assert m[..|m|] == m;
  }

  /** Once a read fails, the later ones are not attempted. */
  lemma {:induction false} ParseBandsFailed(s: string, n: nat, k: nat)
    requires ParseBands(s, n).None? && n <= k
    ensures ParseBands(s, k).None?
  {
    if k > n {
      ParseBandsFailed(s, n, k - 1);
      var prev := ParseBands(s, k - 1);
      assert prev.None?;
    }
  }

  /** A text holding fewer than sixteen values is refused: the read is the fatal error. */
  lemma ParseTooFew(m: seq<Band>)
    requires 0 < |m| < MapSize
    ensures Parse(Join(m)).None?
  {
    ParseJoinPrefix(m, |m|);
    var rest := After(m, |m|);
    assert rest == "";
    ParseBandsStep(Join(m), |m|, m[..|m|], rest);
    ParseBandsFailed(Join(m), |m| + 1, MapSize);
  }

  /** One more read after n successful ones: it extends the values read, or fails them all. */
  lemma ParseBandsStep(s: string, n: nat, bs: seq<Band>, rest: string)
    requires ParseBands(s, n) == Some((bs, rest))
    ensures ReadBand(rest).None? ==> ParseBands(s, n + 1).None?
    ensures ReadBand(rest).Some? ==>
              ParseBands(s, n + 1) == Some((bs + [ReadBand(rest).value.0], ReadBand(rest).value.1))
  {
  }

  /** operator>>: sixteen reads into the map, in place.  On success the map holds the values
      read and `rest` is the unread text; a failed read is the fatal error (ok is false). */
  method ReadMap(priomap: array<Band>, input: string) returns (ok: bool, rest: string)
    requires priomap.Length == MapSize
    modifies priomap
    ensures ok <==> Parse(input).Some?
    ensures ok ==> priomap[..] == Parse(input).value.0 && rest == Parse(input).value.1
  {
    rest := input;
    ghost var read: seq<Band> := [];
    for i := 0 to MapSize
      invariant |read| == i && priomap[..i] == read
      invariant ParseBands(input, i) == Some((read, rest))
    {
      var r := ReadBand(rest);
      ParseBandsStep(input, i, read, rest);
      if r.None? {
        ParseBandsFailed(input, i + 1, MapSize);
        return false, rest;
      }
      priomap[i] := r.value.0;
      read := read + [r.value.0];
      rest := r.value.1;
    }
    assert priomap[..] == priomap[..MapSize];
    ok := true;
  }
}
