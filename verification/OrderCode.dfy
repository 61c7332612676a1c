/** The human-readable order code `ORD-<year>-<nnn>`: a fixed word, the
    calendar year and a number zero-padded to at least three digits. Both
    order stores print codes this way; they choose the number differently. */
module OrderCode {
  import opened Wrappers
  import opened JsStrings

  /** `ORD-<year>-`. */
  function Prefix(year: nat): string
  {
    "ORD-" + NatToString(year) + "-"
  }

  /** The code for `n` in `year`: after the prefix, for `n >= 0`, the
      decimal digits of `n` with zeros in front up to three digits. */
  function Format(year: nat, n: int): (code: string)
    ensures StartsWith(code, Prefix(year))
    ensures n >= 0 ==>
      var d := code[|Prefix(year)|..];
      && AllRadixDigits(d, 10)
      && |d| == (if |NatToString(n)| >= 3 then |NatToString(n)| else 3)
      && RadixValue(d, 10) == n
  {
    var p := Prefix(year);
    var code := p + PadStart(IntToString(n), 3, '0');
    assert code[..|p|] == p;
    assert code[|p|..] == PadStart(IntToString(n), 3, '0');
    assert n >= 0 ==> RadixValue(PadStart(NatToString(n), 3, '0'), 10) == n by {
      if n >= 0 {
        PaddedValue(n, 3);
      }
    }
    code
  }

  /** The number a code carries: its third dash-separated field read by
      `parseInt`, None when that gives no number. A field of a dash split holds no dash, so no sign: the number
      is never negative. */
  function NumberOf(code: string): (r: Option<int>)
    ensures r.Some? ==> r.value >= 0
  {
    match Field(code, '-', 2)
    case None => None
    case Some(f) => ParseInt(f)
  }

  /** After a year prefix, the third field is the text up to the next dash. */
  lemma ThirdFieldAfterPrefix(year: nat, rest: string)
    ensures Field(Prefix(year) + rest, '-', 2) == Some(Split(rest, '-')[0])
  {
    var y := NatToString(year);
    assert '-' !in y by {
      forall i | 0 <= i < |y|
        ensures y[i] != '-'
      {
        assert IsRadixDigit(y[i], 10);
      }
    }
    assert Prefix(year) + rest == "ORD" + ['-'] + (y + ['-'] + rest);
    SplitAfterField("ORD", '-', y + ['-'] + rest);
    SplitAfterField(y, '-', rest);
  }

  /** Reading the number back out of a formatted code gives the number. */
  lemma {:induction false} FormatRoundTrip(year: nat, n: nat)
    ensures NumberOf(Format(year, n)) == Some(n)
  {
    var digits := PadStart(NatToString(n), 3, '0');
    ParsePadded(n, 3);
    assert '-' !in digits by {
      forall i | 0 <= i < |digits|
        ensures digits[i] != '-'
      {
        assert IsRadixDigit(digits[i], 10);
      }
    }
    ThirdFieldAfterPrefix(year, digits);
    SplitNoSeparator(digits, '-');
  }

  /** A code of one year never carries the prefix of another year, so
      `ORD-2025-` codes are invisible to the numbering of 2026. */
  lemma PrefixExclusive(y1: nat, y2: nat, code: string)
    requires y1 != y2
    requires StartsWith(code, Prefix(y1))
    ensures !StartsWith(code, Prefix(y2))
  {
    var d1, d2 := NatToString(y1), NatToString(y2);
    assert d1 != d2 by {
      if d1 == d2 {
        NatToStringInjective(y1, y2);
      }
    }
    DigitPrefixesExclusive(d1, d2, code);
  }

  /** `ORD-<d1>-` and `ORD-<d2>-` for different digit strings: no code
      starts with both. */
  lemma DigitPrefixesExclusive(d1: string, d2: string, code: string)
    requires AllRadixDigits(d1, 10) && AllRadixDigits(d2, 10) && d1 != d2
    requires StartsWith(code, "ORD-" + d1 + "-")
    ensures !StartsWith(code, "ORD-" + d2 + "-")
  {
    var p1, p2 := "ORD-" + d1 + "-", "ORD-" + d2 + "-";
    if |p2| <= |code| {
      // a position where the code and the other prefix disagree
      var k: nat;
      if |d1| == |d2| {
        var i :| 0 <= i < |d1| && d1[i] != d2[i];
        k := 4 + i;
        assert code[k] == p1[k] == d1[i] && p2[k] == d2[i];
      } else if |d1| < |d2| {
        k := 4 + |d1|;
        assert code[k] == p1[k] == '-';
        assert p2[k] == d2[|d1|] && IsRadixDigit(d2[|d1|], 10);
      } else {
        k := 4 + |d2|;
        assert p2[k] == '-';
        assert code[k] == p1[k] == d1[|d2|] && IsRadixDigit(d1[|d2|], 10);
      }
      assert code[..|p2|][k] != p2[k];
    }
  }
}
