/** The animated counters of the home page (src/pages/HomePage.tsx): each
    stat string such as `1,000+` is split into the number the counter
    runs to (`parseInt` of its digits, `/[^\d]/g` removed) and the suffix
    shown after it (its digit runs, `/\d+/g`, removed). */
module HomeStats {
  import opened Common

  /** `s.replace(/[^\d]/g, '')`: the digits of `s`, in order. */
  function Digits(s: string): (r: string)
    ensures AllDigits(r) && |r| <= |s|
  {
    if s == [] then [] else (if IsDigit(s[0]) then [s[0]] else []) + Digits(s[1..])
  }

  /** `s.replace(/\d+/g, '')`: removing every maximal digit run removes
      every digit, so this keeps the other characters, in order. */
  function Suffix(s: string): (r: string)
    ensures |r| <= |s|
  {
    if s == [] then [] else (if IsDigit(s[0]) then [] else [s[0]]) + Suffix(s[1..])
  }

  /** `a` can be had from `s` by deleting characters. */
  predicate Subsequence(a: string, s: string)
    decreases |s|
  {
    if a == [] then true
    else if s == [] then false
    else (a[0] == s[0] && Subsequence(a[1..], s[1..])) || Subsequence(a, s[1..])
  }

  /** The counter's `end`: `None` for `NaN`, when there are no digits. */
  function End(s: string): Option<int> {
    ParseInt(Digits(s))
  }

  /** The suffix has no digit; the digits and the suffix are both
      subsequences of the stat string, and between them hold all of its
      characters. */
  lemma {:induction false} SplitProperties(s: string)
    ensures forall i :: 0 <= i < |Suffix(s)| ==> !IsDigit(Suffix(s)[i])
    ensures Subsequence(Digits(s), s) && Subsequence(Suffix(s), s)
    ensures |Digits(s)| + |Suffix(s)| == |s|
  {
    if s != [] {
      SplitProperties(s[1..]);
      var d, x := Digits(s), Suffix(s);
      if IsDigit(s[0]) {
        assert d == [s[0]] + Digits(s[1..]) && d[1..] == Digits(s[1..]);
        assert x == Suffix(s[1..]);
        SubsequenceSkip(x, s);
      } else {
        assert x == [s[0]] + Suffix(s[1..]) && x[1..] == Suffix(s[1..]);
        assert d == Digits(s[1..]);
        SubsequenceSkip(d, s);
      }
    }
  }

  /** Skipping the first character of `s` keeps a subsequence one. */
  lemma SubsequenceSkip(a: string, s: string)
    requires s != [] && Subsequence(a, s[1..])
    ensures Subsequence(a, s)
  {
  }

  /** A non-empty digit string parses to the number it spells. */
  lemma ParseDigits(d: string)
    requires d != [] && AllDigits(d)
    ensures ParseInt(d) == Some(DecimalValue(d) as int)
  {
    assert !IsWhitespace(d[0]);
    assert TrimStart(d) == d;
    DigitRunOfDigits(d);
  }

  /** With at least one digit, `end` is the number the digits spell. */
  lemma EndValue(s: string)
    requires Digits(s) != []
    ensures End(s) == Some(DecimalValue(Digits(s)) as int)
  {
    ParseDigits(Digits(s));
  }

  /** A stat string without digits counts to `NaN`. */
  lemma EndWithoutDigits(s: string)
    requires Digits(s) == []
    ensures End(s).None?
  {
  }

  /** `1,000+` counts to 1000 with the suffix `,+`. */
  lemma DonationsStat()
    ensures Digits("1,000+") == "1000" && Suffix("1,000+") == ",+"
    ensures End("1,000+") == Some(1000)
  {
    DonationsSplit();
    ThousandValue();
    ParseDigits("1000");
  }

  lemma DonationsSplit()
    ensures Digits("1,000+") == "1000" && Suffix("1,000+") == ",+"
  {
    assert "1,000+"[1..] == ",000+" && ",000+"[1..] == "000+" && "000+"[1..] == "00+";
    assert "00+"[1..] == "0+" && "0+"[1..] == "+" && "+"[1..] == [];
  }

  lemma ThousandValue()
    ensures AllDigits("1000") && DecimalValue("1000") == 1000
  {
    var d := "1000";
    assert d[..3] == "100" && d[..3][..2] == "10" && d[..3][..2][..1] == "1" && d[..3][..2][..1][..0] == [];
    assert DecimalValue("1") == 1;
    assert DecimalValue("10") == 10;
    assert DecimalValue("100") == 100;
  }

  /** `500+` counts to 500 with the suffix `+`. */
  lemma RecipientsStat()
    ensures Digits("500+") == "500" && Suffix("500+") == "+"
    ensures End("500+") == Some(500)
  {
    assert "500+"[1..] == "00+" && "00+"[1..] == "0+" && "0+"[1..] == "+" && "+"[1..] == [];
    assert Digits("500+") == "500";
    var d := "500";
    assert d[..2] == "50" && d[..2][..1] == "5" && d[..2][..1][..0] == [];
    assert DecimalValue("5") == 5;
    assert DecimalValue("50") == 50;
    assert DecimalValue(d) == 500;
    ParseDigits(d);
  }

  /** `50+` counts to 50 with the suffix `+`. */
  lemma CommunitiesStat()
    ensures Digits("50+") == "50" && Suffix("50+") == "+"
    ensures End("50+") == Some(50)
  {
    assert "50+"[1..] == "0+" && "0+"[1..] == "+" && "+"[1..] == [];
    assert Digits("50+") == "50";
    var d := "50";
    assert d[..1] == "5" && d[..1][..0] == [];
    assert DecimalValue(d) == 50;
    ParseDigits(d);
  }

  /** `95%` counts to 95 with the suffix `%`. */
  lemma SatisfactionStat()
    ensures Digits("95%") == "95" && Suffix("95%") == "%"
    ensures End("95%") == Some(95)
  {
    assert "95%"[1..] == "5%" && "5%"[1..] == "%" && "%"[1..] == [];
    assert Digits("95%") == "95";
    var d := "95";
    assert d[..1] == "9" && d[..1][..0] == [];
    assert DecimalValue(d) == 95;
    ParseDigits(d);
  }

  // ---------------------------------------------------------------------
  // The suffix beside CountUp's separator
  // ---------------------------------------------------------------------

  /** The `separator` CountUp is given; it already groups the digits of
      `end` with it. */
  const Separator: char := ','

  /** The suffix as evidently intended: the stat string without its digits
      and without the grouping separators, which the counter draws itself. */
  function CounterSuffix(s: string): (r: string)
    ensures |r| <= |Suffix(s)|
    ensures forall i :: 0 <= i < |r| ==> !IsDigit(r[i]) && r[i] != Separator
  {
    if s == [] then []
    else (if IsDigit(s[0]) || s[0] == Separator then [] else [s[0]]) + CounterSuffix(s[1..])
  }

  /** On a stat string without a separator the corrected suffix is the
      written one, so only `1,000+` of the four stats changes. */
  lemma {:induction false} CounterSuffixAgrees(s: string)
    requires forall i :: 0 <= i < |s| ==> s[i] != Separator
    ensures CounterSuffix(s) == Suffix(s)
  {
    if s != [] {
      assert forall i :: 0 <= i < |s[1..]| ==> s[1..][i] == s[i + 1];
      CounterSuffixAgrees(s[1..]);
    }
  }

  /** As written, the suffix of `1,000+` starts with the separator that the
      grouped counter `1,000` already contains, so the counter ends on
      `1,000,+`. */
  lemma DonationsSuffixRepeatsSeparator()
    ensures |Suffix("1,000+")| == 2 && Suffix("1,000+")[0] == Separator
  {
    DonationsSplit();
  }

  /** The corrected suffix of `1,000+` is `+`. */
  lemma DonationsCounterSuffix()
    ensures CounterSuffix("1,000+") == "+"
  {
    assert "1,000+"[1..] == ",000+" && ",000+"[1..] == "000+" && "000+"[1..] == "00+";
    assert "00+"[1..] == "0+" && "0+"[1..] == "+" && "+"[1..] == [];
  }
}
