/** Character-level helpers the simulator relies on: the `std::stoi` prefix
    parse used for immediates and offsets, the decimal rendering used by
    `to_string` when register names are built, and the space join used when
    a line has more than four tokens. */
module Text {

  datatype Option<T> = None | Some(value: T)

  predicate IsDigit(c: char) {
    '0' <= c <= '9'
  }

  /** The characters `isspace` accepts in the C locale. */
  predicate IsSpace(c: char) {
    c == ' ' || c == '\t' || c == '\n' || c == '\r' || c as int == 11 || c as int == 12
  }

  predicate AllDigits(s: string) {
    forall i | 0 <= i < |s| :: IsDigit(s[i])
  }

  function DigitValue(c: char): (d: nat)
    requires IsDigit(c)
    ensures d < 10
  {
    c as int - '0' as int
  }

  function DigitChar(d: nat): (c: char)
    requires d < 10
    ensures IsDigit(c) && DigitValue(c) == d
  {
    ('0' as int + d) as char
  }

  /** Number of digits at the front of `s`. */
  function LeadingDigits(s: string): (k: nat)
    ensures k <= |s|
    ensures AllDigits(s[..k])
    ensures k < |s| ==> !IsDigit(s[k])
  {
    if |s| == 0 || !IsDigit(s[0]) then 0 else 1 + LeadingDigits(s[1..])
  }

  /** Value of a run of decimal digits, most significant first. */
  function DigitsValue(d: string): nat
    requires AllDigits(d)
  {
    if |d| == 0 then 0 else DigitsValue(d[..|d| - 1]) * 10 + DigitValue(d[|d| - 1])
  }

  function SkipSpaces(s: string): (t: string)
    ensures |t| <= |s|
    ensures |t| == 0 || !IsSpace(t[0])
  {
    if |s| > 0 && IsSpace(s[0]) then SkipSpaces(s[1..]) else s
  }

  /** `std::stoi(s)` in base 10: leading white space, an optional sign, then
      the longest run of digits; anything after the digits is ignored.  None
      stands for the `invalid_argument` exception (no digit at all).  The
      value is unbounded: the `out_of_range` exception is not modelled. */
  function StoI(s: string): Option<int>
  {
    SignedDigits(SkipSpaces(s))
  }

  /** The part of `stoi` after the white space has been skipped. */
  function SignedDigits(t: string): Option<int>
  {
    var body := if |t| > 0 && (t[0] == '-' || t[0] == '+') then t[1..] else t;
    var k := LeadingDigits(body);
    var magnitude: int := DigitsValue(body[..k]);
    if k == 0 then None
    else if |t| > 0 && t[0] == '-' then Some(-magnitude)
    else Some(magnitude)
  }

  /** Decimal rendering of a natural number without leading zeros
      (`std::to_string`). */
  function NatToString(n: nat): (s: string)
    ensures |s| > 0 && AllDigits(s)
    ensures |s| > 1 ==> s[0] != '0'
    decreases n
  {
    if n < 10 then [DigitChar(n)] else NatToString(n / 10) + [DigitChar(n % 10)]
  }

  function IntToString(i: int): (s: string)
    ensures |s| > 0
  {
    if i < 0 then "-" + NatToString(-i) else NatToString(i)
  }

  lemma {:induction false} DigitsValueOfRendering(n: nat)
    ensures DigitsValue(NatToString(n)) == n
    decreases n
  {
    if n >= 10 {
      DigitsValueOfRendering(n / 10);
      var s := NatToString(n);
      assert s[..|s| - 1] == NatToString(n / 10);
    }
  }

  lemma {:induction false} LeadingDigitsOfDigitsThen(d: string, rest: string)
    requires AllDigits(d)
    requires |rest| == 0 || !IsDigit(rest[0])
    ensures LeadingDigits(d + rest) == |d|
    decreases |d|
  {
    if |d| > 0 {
      assert (d + rest)[1..] == d[1..] + rest;
      LeadingDigitsOfDigitsThen(d[1..], rest);
    } else {
      assert d + rest == rest;
    }
  }

  /** `stoi` reads back exactly the number `to_string` wrote, whatever
      non-digit text follows it. */
  lemma StoIReadsRendering(i: int, rest: string)
    requires |rest| == 0 || !IsDigit(rest[0])
    ensures StoI(IntToString(i) + rest) == Some(i)
  {
    if i < 0 {
      var n: nat := -i;
      assert IntToString(i) + rest == "-" + (NatToString(n) + rest);
      StoINegative(n, rest);
    } else {
      assert IntToString(i) + rest == NatToString(i) + rest;
      StoIUnsigned(i, rest);
    }
  }

  lemma StoINegative(n: nat, rest: string)
    requires |rest| == 0 || !IsDigit(rest[0])
    ensures StoI("-" + (NatToString(n) + rest)) == Some(-(n as int))
  {
    SkipSpacesAtNonSpace("-" + (NatToString(n) + rest));
    NegativeReadsRendering(n, rest);
  }

  lemma StoIUnsigned(n: nat, rest: string)
    requires |rest| == 0 || !IsDigit(rest[0])
    ensures StoI(NatToString(n) + rest) == Some(n as int)
  {
    SkipSpacesAtNonSpace(NatToString(n) + rest);
    UnsignedReadsRendering(n, rest);
  }

  lemma SkipSpacesAtNonSpace(s: string)
    requires |s| > 0 && (s[0] == '-' || IsDigit(s[0]))
    ensures SkipSpaces(s) == s
  {
  }

  lemma NegativeReadsRendering(n: nat, rest: string)
    requires |rest| == 0 || !IsDigit(rest[0])
    ensures SignedDigits("-" + (NatToString(n) + rest)) == Some(-(n as int))
  {
    var t := "-" + (NatToString(n) + rest);
    assert t[1..] == NatToString(n) + rest;
    UnsignedReadsRendering(n, rest);
  }

  lemma UnsignedReadsRendering(n: nat, rest: string)
    requires |rest| == 0 || !IsDigit(rest[0])
    ensures var d := NatToString(n) + rest;
            LeadingDigits(d) == |NatToString(n)| && DigitsValue(d[..|NatToString(n)|]) == n
    ensures SignedDigits(NatToString(n) + rest) == Some(n)
  {
    var d := NatToString(n);
    DigitsValueOfRendering(n);
    LeadingDigitsOfDigitsThen(d, rest);
    assert (d + rest)[..|d|] == d;
  }

  /** `to_string` never renders two different numbers the same way. */
  lemma IntToStringInjective(i: int, j: int)
    requires IntToString(i) == IntToString(j)
    ensures i == j
  {
    StoIReadsRendering(i, "");
    StoIReadsRendering(j, "");
    assert IntToString(i) + "" == IntToString(i);
    assert IntToString(j) + "" == IntToString(j);
  }

  /** `s.find(c)` as an int: the first index of `c`, or -1 (`npos` cast to
      int) when `c` does not occur at or after `from`. */
  function FindFrom(s: string, c: char, from: nat): (k: int)
    ensures k == -1 || from <= k < |s|
    ensures k >= 0 ==> s[k] == c && forall i | from <= i < k :: s[i] != c
    ensures k == -1 ==> forall i | from <= i < |s| :: s[i] != c
    decreases |s| - from
  {
    if from >= |s| then -1 else if s[from] == c then from else FindFrom(s, c, from + 1)
  }

  function Find(s: string, c: char): (k: int)
    ensures k == -1 || 0 <= k < |s|
    ensures k >= 0 ==> s[k] == c && c !in s[..k]
    ensures k == -1 <==> c !in s
  {
    var k := FindFrom(s, c, 0);
    assert k >= 0 ==> forall i | 0 <= i < k :: s[..k][i] == s[i];
    k
  }

  /** Tokens glued back together with single spaces, as `parseCommand` does
      with the fifth and later tokens of a line. */
  function JoinSpaced(ts: seq<string>): string
    requires |ts| > 0
  {
    if |ts| == 1 then ts[0] else ts[0] + " " + JoinSpaced(ts[1..])
  }

  /** Splits a string at every space. */
  function SplitSpaces(s: string): (ts: seq<string>)
    ensures |ts| > 0
    decreases |s|
  {
    var k := Find(s, ' ');
    if k < 0 then [s] else [s[..k]] + SplitSpaces(s[k + 1..])
  }

  /** Joining loses nothing: the tokens a tokenizer produced never contain a
      space, so splitting the joined field gives them back. */
  lemma {:induction false} SplitJoin(ts: seq<string>)
    requires |ts| > 0
    requires forall i | 0 <= i < |ts| :: ' ' !in ts[i]
    ensures SplitSpaces(JoinSpaced(ts)) == ts
    decreases |ts|
  {
    if |ts| == 1 {
      assert Find(ts[0], ' ') == -1;
    } else {
      var s := ts[0] + " " + JoinSpaced(ts[1..]);
      var k := |ts[0]|;
      assert s[k] == ' ';
      assert s[..k] == ts[0];
      assert Find(s, ' ') == k;
      assert s[k + 1..] == JoinSpaced(ts[1..]);
      SplitJoin(ts[1..]);
    }
  }
}
