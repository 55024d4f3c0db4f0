/** String helpers with the semantics of the Java and JavaScript library calls the
    application relies on: `trim`, `split` on one character, ASCII case mapping,
    prefix/suffix/substring tests, `lastIndexOf`, decimal rendering and `Long.parseLong`. */
module Text {
  import opened Wrappers

  /** `String.trim` removes leading and trailing characters whose code is at most U+0020. */
  predicate IsBlankChar(c: char) { c <= ' ' }

  /** The first position at or after `i` that is not blank, or `|s|`. */
  function SkipLeading(s: string, i: nat): (k: nat)
    requires i <= |s|
    ensures i <= k <= |s|
    ensures forall j :: i <= j < k ==> IsBlankChar(s[j])
    ensures k < |s| ==> !IsBlankChar(s[k])
    decreases |s| - i
  {
    if i == |s| || !IsBlankChar(s[i]) then i else SkipLeading(s, i + 1)
  }

  /** The end, at most `e` and at least `lo`, after which everything up to `e` is blank. */
  function SkipTrailing(s: string, lo: nat, e: nat): (k: nat)
    requires lo <= e <= |s|
    ensures lo <= k <= e
    ensures forall j :: k <= j < e ==> IsBlankChar(s[j])
    ensures k > lo ==> !IsBlankChar(s[k - 1])
    decreases e
  {
    if e == lo || !IsBlankChar(s[e - 1]) then e else SkipTrailing(s, lo, e - 1)
  }

  /** How many blank characters `trim` removes from the front. */
  function LeadingBlanks(s: string): (k: nat)
    ensures k <= |s|
  {
    SkipLeading(s, 0)
  }

  /** Java `String.trim`: strips every character at or below U+0020 from both ends. */
  function Trim(s: string): (r: string)
    ensures |r| <= |s|
    ensures r == [] || (!IsBlankChar(r[0]) && !IsBlankChar(r[|r| - 1]))
    ensures var k := LeadingBlanks(s); k + |r| <= |s| && r == s[k..k + |r|]
    ensures forall i :: 0 <= i < LeadingBlanks(s) ==> IsBlankChar(s[i])
    ensures forall i :: LeadingBlanks(s) + |r| <= i < |s| ==> IsBlankChar(s[i])
  {
    var k := SkipLeading(s, 0);
    var e := SkipTrailing(s, k, |s|);
    s[k..e]
  }

  /** A string is blank when trimming leaves nothing. */
  predicate IsBlank(s: string) { Trim(s) == [] }

  lemma BlankIffAllBlankChars(s: string)
    ensures IsBlank(s) <==> forall i :: 0 <= i < |s| ==> IsBlankChar(s[i])
  {
    var r := Trim(s);
    if r != [] {
      assert s[LeadingBlanks(s)] == r[0];
    }
  }

  lemma {:induction false} TrimIdempotent(s: string)
    ensures Trim(Trim(s)) == Trim(s)
  {
    var r := Trim(s);
    if r != [] {
      assert LeadingBlanks(r) == 0;
      assert SkipTrailing(r, 0, |r|) == |r|;
    }
  }

  /** Splits on every occurrence of `sep`, keeping empty pieces (JavaScript `split`).
      Java's `split` also drops trailing empty pieces; every caller in the application
      discards empty pieces afterwards, so the difference never shows. */
  function Split(s: string, sep: char): (r: seq<string>)
    ensures |r| >= 1
    ensures forall i :: 0 <= i < |r| ==> sep !in r[i]
  {
    if s == [] then [[]]
    else
      var rest := Split(s[1..], sep);
      if s[0] == sep then [[]] + rest
      else [[s[0]] + rest[0]] + rest[1..]
  }

  /** Inverse of `Split`: the pieces glued back together with the separator. */
  function Join(parts: seq<string>, sep: char): string
    requires |parts| >= 1
  {
    if |parts| == 1 then parts[0] else parts[0] + [sep] + Join(parts[1..], sep)
  }

  lemma {:induction false} JoinSplit(s: string, sep: char)
    ensures Join(Split(s, sep), sep) == s
  {
    if s != [] {
      var rest := Split(s[1..], sep);
      JoinSplit(s[1..], sep);
      if s[0] != sep {
        if |rest| == 1 {
          assert Join(Split(s, sep), sep) == [s[0]] + rest[0];
        } else {
          assert Join(Split(s, sep), sep) == [s[0]] + rest[0] + [sep] + Join(rest[1..], sep);
        }
      }
    }
  }

  /** ASCII case mapping; other characters are left alone. */
  function LowerChar(c: char): (r: char)
    ensures !('A' <= r <= 'Z')
    ensures !('A' <= c <= 'Z') ==> r == c
  {
    if 'A' <= c <= 'Z' then (c as int + 32) as char else c
  }

  function UpperChar(c: char): (r: char)
    ensures !('a' <= r <= 'z')
    ensures !('a' <= c <= 'z') ==> r == c
  {
    if 'a' <= c <= 'z' then (c as int - 32) as char else c
  }

  function ToLower(s: string): (r: string)
    ensures |r| == |s|
    ensures forall i :: 0 <= i < |s| ==> r[i] == LowerChar(s[i])
  {
    seq(|s|, i requires 0 <= i < |s| => LowerChar(s[i]))
  }

  function ToUpper(s: string): (r: string)
    ensures |r| == |s|
    ensures forall i :: 0 <= i < |s| ==> r[i] == UpperChar(s[i])
  {
    seq(|s|, i requires 0 <= i < |s| => UpperChar(s[i]))
  }

  predicate StartsWith(s: string, prefix: string) {
    |prefix| <= |s| && s[..|prefix|] == prefix
  }

  predicate EndsWith(s: string, suffix: string) {
    |suffix| <= |s| && s[|s| - |suffix|..] == suffix
  }

  /** `s.contains(sub)`: some position of `s` starts with `sub`. */
  predicate Contains(s: string, sub: string)
  {
    StartsWith(s, sub) || (s != [] && Contains(s[1..], sub))
  }

  lemma {:induction false} ContainsSlice(s: string, sub: string, k: nat)
    requires k + |sub| <= |s| && s[k..k + |sub|] == sub
    ensures Contains(s, sub)
  {
    if k > 0 {
      assert s[1..][k - 1..k - 1 + |sub|] == sub;
      ContainsSlice(s[1..], sub, k - 1);
    }
  }

  /** A concatenation starts with its first part and ends with its last. */
  lemma PrefixAndSuffix(a: string, b: string)
    ensures StartsWith(a + b, a) && EndsWith(a + b, b)
  {
    assert (a + b)[..|a|] == a;
    assert (a + b)[|a + b| - |b|..] == b;
  }

  /** A four-part concatenation starts with its first part, ends with its last, and
      contains any text its second part starts with. */
  lemma FourParts(a: string, b: string, c: string, d: string, sub: string)
    ensures StartsWith(a + b + c + d, a) && EndsWith(a + b + c + d, d)
    ensures StartsWith(b, sub) ==> Contains(a + b + c + d, sub)
  {
    var s := a + b + c + d;
    assert s[..|a|] == a;
    assert s[|s| - |d|..] == d;
    if StartsWith(b, sub) {
      assert s[|a|..|a| + |sub|] == b[..|sub|];
      ContainsSlice(s, sub, |a|);
    }
  }

  /** `s.lastIndexOf(c)`: the last position holding `c`, or -1. */
  function LastIndexOf(s: string, c: char): (r: int)
    ensures -1 <= r < |s|
    ensures r == -1 <==> c !in s
    ensures r >= 0 ==> s[r] == c && c !in s[r + 1..]
  {
    if s == [] then -1
    else if s[|s| - 1] == c then |s| - 1
    else
      var r := LastIndexOf(s[..|s| - 1], c);
      assert s == s[..|s| - 1] + [s[|s| - 1]];
      r
  }

  /** Decimal digits of a natural number, most significant first (`String.valueOf`). */
  function NatToString(n: nat): (r: string)
    ensures |r| >= 1
    ensures forall i :: 0 <= i < |r| ==> '0' <= r[i] <= '9'
    decreases n
  {
    if n < 10 then [DigitChar(n)] else NatToString(n / 10) + [DigitChar(n % 10)]
  }

  function DigitChar(d: nat): (c: char)
    requires d < 10
    ensures '0' <= c <= '9' && c as int - '0' as int == d
  {
    ('0' as int + d) as char
  }

  predicate IsDigit(c: char) { '0' <= c <= '9' }

  /** The value of a string of decimal digits. */
  function DigitsValue(s: string): nat
    requires forall i :: 0 <= i < |s| ==> IsDigit(s[i])
  {
    if s == [] then 0
    else
      assert IsDigit(s[|s| - 1]);
      DigitsValue(s[..|s| - 1]) * 10 + (s[|s| - 1] as int - '0' as int)
  }

  lemma {:induction false} DigitsValueOfNatToString(n: nat)
    ensures DigitsValue(NatToString(n)) == n
    decreases n
  {
    if n >= 10 {
      var s := NatToString(n);
      assert s[..|s| - 1] == NatToString(n / 10);
      DigitsValueOfNatToString(n / 10);
    }
  }

  const LongMin: int := -0x8000_0000_0000_0000
  const LongMax: int := 0x7FFF_FFFF_FFFF_FFFF
  const IntMin: int := -0x8000_0000
  const IntMax: int := 0x7FFF_FFFF

  function Pow10(n: nat): (r: nat)
    ensures r >= 1
  {
    if n == 0 then 1 else 10 * Pow10(n - 1)
  }

  predicate AllDigits(s: string) {
    forall i :: 0 <= i < |s| ==> IsDigit(s[i])
  }

  /** The value of a digit string as the sum of each digit times the power of ten of its
      position, read from the left. */
  function PositionalValue(s: string): int
    requires AllDigits(s)
  {
    if s == [] then 0
    else (s[0] as int - '0' as int) * Pow10(|s| - 1) + PositionalValue(s[1..])
  }

  /** Appending a digit multiplies the value by ten and adds the digit. */
  lemma {:induction false} PositionalValueSnoc(s: string, c: char)
    requires AllDigits(s) && IsDigit(c)
    ensures AllDigits(s + [c])
    ensures PositionalValue(s + [c]) == PositionalValue(s) * 10 + (c as int - '0' as int)
  {
    var t := s + [c];
    assert forall i :: 0 <= i < |s| ==> t[i] == s[i];
    assert AllDigits(t);
    if s != [] {
      assert t[1..] == s[1..] + [c];
      PositionalValueSnoc(s[1..], c);
      var d, p, rest := s[0] as int - '0' as int, Pow10(|s| - 1), PositionalValue(s[1..]);
      assert Pow10(|t| - 1) == 10 * p;
      assert PositionalValue(t) == d * (10 * p) + (rest * 10 + (c as int - '0' as int));
      assert PositionalValue(s) == d * p + rest;
      ShiftTen(d, p);
    }
  }

  lemma ShiftTen(d: int, p: int)
    ensures d * (10 * p) == (d * p) * 10
  {
  }

  /** The right-to-left value and the positional value agree. */
  lemma {:induction false} DigitsValueIsPositional(s: string)
    requires AllDigits(s)
    ensures DigitsValue(s) == PositionalValue(s)
  {
    if s != [] {
      var init, last := s[..|s| - 1], s[|s| - 1];
      assert init + [last] == s;
      DigitsValueIsPositional(init);
      PositionalValueSnoc(init, last);
    }
  }

  /** The value an optional sign and a digit string denote. */
  function SignedValue(s: string): int
    requires SignedDigits(s)
  {
    if s[0] == '-' then -PositionalValue(s[1..])
    else if s[0] == '+' then PositionalValue(s[1..])
    else PositionalValue(s)
  }

  /** `Long.parseLong` / `Integer.parseInt` within [lo, hi]: an optional sign followed by at
      least one decimal digit, whose value lies in range; anything else is a
      `NumberFormatException`, modelled as `None`. */
  function ParseInteger(s: string, lo: int, hi: int): (r: Option<int>)
    ensures r == if SignedDigits(s) && lo <= SignedValue(s) <= hi then Some(SignedValue(s)) else None
  {
    var neg := s != [] && s[0] == '-';
    var digits := SignDropped(s);
    SignedDigitsIff(s);
    if digits == [] || !AllDigits(digits) then
      None
    else
      DigitsValueIsPositional(digits);
      var v := if neg then -(DigitsValue(digits) as int) else DigitsValue(digits);
      assert v == SignedValue(s);
      if lo <= v <= hi then Some(v) else None
  }

  /** The digits after an optional leading sign. */
  function SignDropped(s: string): (r: string)
    ensures |r| <= |s|
  {
    if s != [] && (s[0] == '-' || s[0] == '+') then s[1..] else s
  }

  /** An optional sign followed by digits is exactly a string whose part after the sign is
      a non-empty digit string. */
  lemma SignedDigitsIff(s: string)
    ensures SignedDigits(s) <==> SignDropped(s) != [] && AllDigits(SignDropped(s))
  {
    var d := SignDropped(s);
    if s != [] && (s[0] == '-' || s[0] == '+') {
      assert forall i :: 1 <= i < |s| ==> s[i] == d[i - 1];
    }
  }

  /** An optional sign followed by at least one decimal digit. */
  predicate SignedDigits(s: string) {
    && s != []
    && (IsDigit(s[0]) || ((s[0] == '-' || s[0] == '+') && |s| >= 2))
    && forall i :: 1 <= i < |s| ==> IsDigit(s[i])
  }

  function ParseLong(s: string): (r: Option<int>)
    ensures r.Some? <==> SignedDigits(s) && LongMin <= SignedValue(s) <= LongMax
    ensures r.Some? ==> r.value == SignedValue(s)
  {
    ParseInteger(s, LongMin, LongMax)
  }

  function ParseInt(s: string): (r: Option<int>)
    ensures r.Some? <==> SignedDigits(s) && IntMin <= SignedValue(s) <= IntMax
    ensures r.Some? ==> r.value == SignedValue(s)
  {
    ParseInteger(s, IntMin, IntMax)
  }

  /** Rendering a number and parsing it back gives the number again. */
  lemma ParseLongNatToString(n: nat)
    requires n <= LongMax
    ensures ParseLong(NatToString(n)) == Some(n)
  {
    var s := NatToString(n);
    assert IsDigit(s[0]);
    assert !exists i :: 0 <= i < |s| && !IsDigit(s[i]);
    DigitsValueOfNatToString(n);
  }
}
