/** The JavaScript string and number primitives the order-id scheme is
    built from: `Number.prototype.toString`, `String.prototype.padStart`,
    `startsWith`, `split` and the global `parseInt`, for the integer values
    the stores use. */
module JsStrings {
  import opened Wrappers

  /** Weight of `c` as a digit in bases up to 36: `0`-`9` are 0-9, letters
      of either case are 10-35, and any other character is 36 (no digit). */
  function DigitWeight(c: char): nat
  {
    if '0' <= c <= '9' then c as int - '0' as int
    else if 'a' <= c <= 'z' then c as int - 'a' as int + 10
    else if 'A' <= c <= 'Z' then c as int - 'A' as int + 10
    else 36
  }

  predicate IsRadixDigit(c: char, radix: nat)
  {
    DigitWeight(c) < radix
  }

  predicate AllRadixDigits(s: string, radix: nat)
  {
    forall i :: 0 <= i < |s| ==> IsRadixDigit(s[i], radix)
  }

  /** Positional value of a digit string in `radix`; leading zeros allowed. */
  function RadixValue(s: string, radix: nat): nat
    requires AllRadixDigits(s, radix)
  {
    if |s| == 0 then 0
    else RadixValue(s[..|s| - 1], radix) * radix + DigitWeight(s[|s| - 1])
  }

  lemma DigitsAppend(a: string, b: string, radix: nat)
    requires AllRadixDigits(a, radix) && AllRadixDigits(b, radix)
    ensures AllRadixDigits(a + b, radix)
  {
    forall i | 0 <= i < |a + b|
      ensures IsRadixDigit((a + b)[i], radix)
    {
      if i >= |a| {
        assert (a + b)[i] == b[i - |a|];
      }
    }
  }

  lemma ShiftDigit(x: int, p: int, y: int, radix: int, w: int)
    ensures (x * p + y) * radix + w == x * (p * radix) + (y * radix + w)
  {
  }

  /** The value of a concatenation: the left part shifted by the length of
      the right part. */
  lemma {:induction false} RadixValueAppend(a: string, b: string, radix: nat)
    requires AllRadixDigits(a, radix) && AllRadixDigits(b, radix)
    ensures AllRadixDigits(a + b, radix)
    ensures RadixValue(a + b, radix) == RadixValue(a, radix) * Power(radix, |b|) + RadixValue(b, radix)
    decreases |b|
  {
    DigitsAppend(a, b, radix);
    if |b| == 0 {
      assert a + b == a;
    } else {
      var b' := b[..|b| - 1];
      var w := DigitWeight(b[|b| - 1]);
      assert (a + b)[..|a + b| - 1] == a + b';
      assert (a + b)[|a + b| - 1] == b[|b| - 1];
      RadixValueAppend(a, b', radix);
      var x, y, p := RadixValue(a, radix), RadixValue(b', radix), Power(radix, |b'|);
      assert RadixValue(a + b, radix) == RadixValue(a + b', radix) * radix + w;
      assert RadixValue(b, radix) == y * radix + w;
      assert Power(radix, |b|) == radix * p;
      ShiftDigit(x, p, y, radix, w);
    }
  }

  function Power(base: nat, e: nat): nat
  {
    if e == 0 then 1 else base * Power(base, e - 1)
  }

  function DigitChar(d: nat): (c: char)
    requires d < 10
    ensures DigitWeight(c) == d
  {
    ('0' as int + d) as char
  }

  /** `n.toString()` for a non-negative integer: its decimal digits, with no
      leading zero, and the digits read back as `n`. */
  function NatToString(n: nat): (s: string)
    ensures 1 <= |s|
    ensures AllRadixDigits(s, 10)
    ensures RadixValue(s, 10) == n
    ensures s[0] == '0' ==> n == 0
    decreases n
  {
    if n < 10 then [DigitChar(n)]
    else
      var s := NatToString(n / 10) + [DigitChar(n % 10)];
      assert s[..|s| - 1] == NatToString(n / 10);
      s
  }

  /** Decimal rendering is injective: distinct numbers print differently. */
  lemma NatToStringInjective(a: nat, b: nat)
    requires NatToString(a) == NatToString(b)
    ensures a == b
  {
  }

  /** `n.toString()` for any integer (a leading `-` for negatives). */
  function IntToString(n: int): (s: string)
    ensures n >= 0 ==> s == NatToString(n)
    ensures n < 0 ==> s == "-" + NatToString(-n)
  {
    if n < 0 then "-" + NatToString(-n) else NatToString(n)
  }

  function Repeat(c: char, n: nat): (s: string)
    ensures |s| == n
    ensures forall i :: 0 <= i < n ==> s[i] == c
  {
    seq(n, _ => c)
  }

  /** `s.padStart(len, fill)` with a one-character filler: `s` itself when
      already long enough, otherwise `s` with fillers in front up to `len`. */
  function PadStart(s: string, len: nat, fill: char): (r: string)
    ensures |r| == if |s| >= len then |s| else len
    ensures r[|r| - |s|..] == s
    ensures forall i :: 0 <= i < |r| - |s| ==> r[i] == fill
  {
    if |s| >= len then s else Repeat(fill, len - |s|) + s
  }

  /** Leading zeros do not change a decimal value. */
  lemma LeadingZeros(k: nat, t: string)
    requires AllRadixDigits(t, 10)
    ensures AllRadixDigits(Repeat('0', k) + t, 10)
    ensures RadixValue(Repeat('0', k) + t, 10) == RadixValue(t, 10)
  {
    ZerosValue(k);
    RadixValueAppend(Repeat('0', k), t, 10);
  }

  lemma {:induction false} ZerosValue(k: nat)
    ensures AllRadixDigits(Repeat('0', k), 10)
    ensures RadixValue(Repeat('0', k), 10) == 0
  {
    if k > 0 {
      ZerosValue(k - 1);
      assert Repeat('0', k)[..k - 1] == Repeat('0', k - 1);
    }
  }

  /** `s.startsWith(prefix)`. */
  predicate StartsWith(s: string, prefix: string)
  {
    |prefix| <= |s| && s[..|prefix|] == prefix
  }

  /** The first position of `c` in `s`, if any (`indexOf`). */
  function IndexOf(s: string, c: char): (r: Option<nat>)
    ensures r.Some? ==> r.value < |s| && s[r.value] == c && c !in s[..r.value]
    ensures r.None? ==> c !in s
  {
    if |s| == 0 then None
    else if s[0] == c then Some(0)
    else
      match IndexOf(s[1..], c)
      case None => None
      case Some(k) =>
        assert s[..k + 1] == [s[0]] + s[1..][..k];
        Some(k + 1)
  }

  /** `s.split(sep)` for a one-character separator: the maximal runs
      between separators, so there is always at least one (possibly empty)
      field and no field contains the separator. */
  function Split(s: string, sep: char): (r: seq<string>)
    ensures 1 <= |r|
    ensures forall i :: 0 <= i < |r| ==> sep !in r[i]
    decreases |s|
  {
    match IndexOf(s, sep)
    case None => [s]
    case Some(k) => [s[..k]] + Split(s[k + 1..], sep)
  }

  /** `parts.join(sep)`. */
  function Join(parts: seq<string>, sep: char): string
    requires 1 <= |parts|
  {
    if |parts| == 1 then parts[0] else parts[0] + [sep] + Join(parts[1..], sep)
  }

  /** Splitting loses nothing: joining the fields back gives the input. */
  lemma {:induction false} SplitJoin(s: string, sep: char)
    ensures Join(Split(s, sep), sep) == s
    decreases |s|
  {
    match IndexOf(s, sep)
    case None =>
    case Some(k) =>
      var rest := Split(s[k + 1..], sep);
      SplitJoin(s[k + 1..], sep);
      assert Split(s, sep) == [s[..k]] + rest;
      assert ([s[..k]] + rest)[1..] == rest;
      assert Join(Split(s, sep), sep) == s[..k] + [sep] + Join(rest, sep);
      assert s == s[..k] + [sep] + s[k + 1..];
  }

  /** A field free of the separator followed by one separator is split off
      as the first field. */
  lemma SplitAfterField(a: string, sep: char, b: string)
    requires sep !in a
    ensures Split(a + [sep] + b, sep) == [a] + Split(b, sep)
  {
    var s := a + [sep] + b;
    assert s[..|a|] == a;
    assert s[|a| + 1..] == b;
  }

  /** A string without the separator is a single field. */
  lemma SplitNoSeparator(s: string, sep: char)
    requires sep !in s
    ensures Split(s, sep) == [s]
  {
  }

  /** The `k`-th field of `s.split(sep)`, or None (`undefined`) when there
      are not that many fields. */
  function Field(s: string, sep: char, k: nat): (r: Option<string>)
    ensures r.Some? ==> sep !in r.value
  {
    var parts := Split(s, sep);
    if k < |parts| then Some(parts[k]) else None
  }

  /** White space and line terminators that `parseInt` skips before the
      number (StrWhiteSpaceChar in the ECMAScript grammar). */
  predicate IsJsWhiteSpace(c: char)
  {
    || c == '\t' || c == '\n' || c == '\U{B}' || c == '\U{C}' || c == '\r' || c == ' '
    || c == '\U{A0}' || c == '\U{1680}' || ('\U{2000}' <= c <= '\U{200A}')
    || c == '\U{2028}' || c == '\U{2029}' || c == '\U{202F}' || c == '\U{205F}'
    || c == '\U{3000}' || c == '\U{FEFF}'
  }

  /** `s` without its leading white space. */
  function TrimStart(s: string): string
  {
    if |s| > 0 && IsJsWhiteSpace(s[0]) then TrimStart(s[1..]) else s
  }

  /** Trimming removes white space only, and all of it: what is left is a
      suffix of the input that does not start with white space. */
  lemma {:induction false} TrimStartSuffix(s: string)
    ensures |TrimStart(s)| <= |s| && TrimStart(s) == s[|s| - |TrimStart(s)|..]
    ensures forall i :: 0 <= i < |s| - |TrimStart(s)| ==> IsJsWhiteSpace(s[i])
    ensures |TrimStart(s)| > 0 ==> !IsJsWhiteSpace(TrimStart(s)[0])
  {
    if |s| > 0 && IsJsWhiteSpace(s[0]) {
      TrimStartSuffix(s[1..]);
      forall i | 1 <= i < |s| - |TrimStart(s)|
        ensures IsJsWhiteSpace(s[i])
      {
        assert s[i] == s[1..][i - 1];
      }
    }
  }

  /** The longest prefix of `s` made of `radix` digits. */
  function DigitRun(s: string, radix: nat): string
  {
    if |s| > 0 && IsRadixDigit(s[0], radix) then [s[0]] + DigitRun(s[1..], radix) else []
  }

  /** The digit run is a prefix of digits that cannot be extended. */
  lemma {:induction false} DigitRunLongest(s: string, radix: nat)
    ensures |DigitRun(s, radix)| <= |s| && DigitRun(s, radix) == s[..|DigitRun(s, radix)|]
    ensures AllRadixDigits(DigitRun(s, radix), radix)
    ensures |DigitRun(s, radix)| < |s| ==> !IsRadixDigit(s[|DigitRun(s, radix)|], radix)
  {
    if |s| > 0 && IsRadixDigit(s[0], radix) {
      DigitRunLongest(s[1..], radix);
      var r := DigitRun(s, radix);
      assert s[..|r|] == [s[0]] + s[1..][..|r| - 1];
    }
  }

  /** A string made only of digits is its own digit run. */
  lemma {:induction false} DigitRunAll(s: string, radix: nat)
    requires AllRadixDigits(s, radix)
    ensures DigitRun(s, radix) == s
  {
    if |s| > 0 {
      DigitRunAll(s[1..], radix);
    }
  }

  /** The global `parseInt(s)` with no radix argument: leading white space
      is skipped, one `+` or `-` is taken as the sign, a `0x`/`0X` prefix
      selects base 16 (otherwise base 10), and the longest run of digits
      that follows is the value; with no digit the result is `NaN`, here
      None. */
  function ParseInt(s: string): (r: Option<int>)
    ensures r.Some? && '-' !in s ==> r.value >= 0
  {
    var t := TrimStart(s);
    var (negative, u) := SplitSign(t);
    var (radix, v) := SplitRadixPrefix(u);
    var digits := DigitRun(v, radix);
    if |digits| == 0 then None
    else
      DigitRunLongest(v, radix);
      var magnitude: int := RadixValue(digits, radix);
      assert negative ==> '-' in s by {
        if negative {
          TrimStartSuffix(s);
          assert t[0] == s[|s| - |t|];
        }
      }
      var value: int := if negative then -magnitude else magnitude;
      Some(value)
  }

  /** Whether `t` opens with `-`, and `t` without a leading `+` or `-`. */
  function SplitSign(t: string): (r: (bool, string))
    ensures r.0 <==> |t| > 0 && t[0] == '-'
  {
    if |t| > 0 && (t[0] == '-' || t[0] == '+') then (t[0] == '-', t[1..]) else (false, t)
  }

  /** Base 16 and the rest after a `0x`/`0X` prefix, otherwise base 10 and
      `u` itself. */
  function SplitRadixPrefix(u: string): (r: (nat, string))
    ensures r.0 == 10 || r.0 == 16
  {
    if |u| >= 2 && u[0] == '0' && (u[1] == 'x' || u[1] == 'X') then (16, u[2..]) else (10, u)
  }

  /** A non-empty run of decimal digits parses to its decimal value. */
  lemma ParseIntDecimal(s: string)
    requires 1 <= |s| && AllRadixDigits(s, 10)
    ensures ParseInt(s) == Some(RadixValue(s, 10))
  {
    assert IsRadixDigit(s[0], 10);
    assert TrimStart(s) == s;
    assert SplitSign(s) == (false, s);
    if |s| >= 2 {
      assert IsRadixDigit(s[1], 10);
    }
    assert SplitRadixPrefix(s) == (10, s);
    DigitRunAll(s, 10);
  }

  /** `parseInt` reads back a zero-padded `toString` (the order-number
      round trip). */
  lemma ParsePadded(n: nat, len: nat)
    ensures AllRadixDigits(PadStart(NatToString(n), len, '0'), 10)
    ensures ParseInt(PadStart(NatToString(n), len, '0')) == Some(n)
  {
    PaddedValue(n, len);
    ParseIntDecimal(PadStart(NatToString(n), len, '0'));
  }

  /** Zero-padding a decimal text keeps it decimal and keeps its value. */
  lemma PaddedValue(n: nat, len: nat)
    ensures AllRadixDigits(PadStart(NatToString(n), len, '0'), 10)
    ensures RadixValue(PadStart(NatToString(n), len, '0'), 10) == n
  {
    var s := NatToString(n);
    var p := PadStart(s, len, '0');
    if |s| < len {
      var z := Repeat('0', len - |s|);
      assert p == z + s;
      LeadingZeros(len - |s|, s);
    }
    assert RadixValue(p, 10) == RadixValue(s, 10);
  }
}
