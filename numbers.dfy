/**
 * The literal numbers found in a text, shared by the loader's
 * `_extract_numerical_data` and the evaluator's `_extract_rates`,
 * `_extract_amounts` and `_extract_terms`: percentage rates, dollar amounts and
 * month/year terms, each the capture of one `re.findall` with its exact value.
 */
module Numbers {
  import opened Wrappers
  import opened Text
  import opened Regex

  /** `[float(m) for m in re.findall(r'(\d+\.?\d*)\s*%', text)]`. */
  function RatesIn(text: string): (r: seq<real>)
    ensures |r| == |FindIter(Rate, text, 0)|
  {
    var hits := FindIter(Rate, text, 0);
    seq(|hits|, i requires 0 <= i < |hits| => DecimalValue(hits[i].group))
  }

  /** `[float(a.replace(',', '')) for a in re.findall(r'\$(\d{1,3}(?:,\d{3})*(?:\.\d{2})?)', text)]`. */
  function AmountsIn(text: string): (r: seq<real>)
    ensures |r| == |FindIter(Dollar, text, 0)|
  {
    var hits := FindIter(Dollar, text, 0);
    seq(|hits|, i requires 0 <= i < |hits| => DecimalValue(Remove(hits[i].group, ',')))
  }

  /** `[int(m) for m in re.findall(r'(\d+)\s*(?:month|year)s?', text, re.IGNORECASE)]`. */
  function TermsIn(text: string): (r: seq<nat>)
    ensures |r| == |FindIter(Term, text, 0)|
  {
    var hits := FindIter(Term, text, 0);
    seq(|hits|, i requires 0 <= i < |hits| => DigitsValue(hits[i].group))
  }

  /** A number `\d+\.?\d*`: digits, then optionally a dot and more digits. */
  predicate IsRateNumber(g: string) {
    var k := IndexOf(g, '.', 0);
    0 < k && AllDigits(g[..k]) && (k == |g| || AllDigits(g[k + 1..]))
  }

  /**
   * Every rate the text yields is the number just before a `%`, with only
   * whitespace between them.
   */
  lemma RateCapture(text: string, i: nat)
    requires i < |FindIter(Rate, text, 0)|
    ensures var h := FindIter(Rate, text, 0)[i];
      && h.start + |h.group| < h.end <= |text|
      && h.group == text[h.start..h.start + |h.group|]
      && IsRateNumber(h.group)
      && (forall k :: h.start + |h.group| <= k < h.end - 1 ==> IsSpace(text[k]))
      && text[h.end - 1] == '%'
  {
    var h := FindIter(Rate, text, 0)[i];
    FindIterHit(Rate, text, 0, i);
    MatchAtRate(text, h.start);
    RateAtShape(text, h.start);
  }

  /** A rate match: the number, then whitespace, then the `%` it ends with. */
  lemma RateAtShape(s: string, p: nat)
    requires p <= |s| && RateAt(s, p).Some?
    ensures var h := RateAt(s, p).value;
      && p + |h.group| < h.end <= |s|
      && h.group == s[p..p + |h.group|]
      && IsRateNumber(h.group)
      && (forall k :: p + |h.group| <= k < h.end - 1 ==> IsSpace(s[k]))
      && s[h.end - 1] == '%'
  {
    var a := DigitsEnd(s, p);
    var b := if a < |s| && s[a] == '.' then DigitsEnd(s, a + 1) else a;
    var c := SpacesEnd(s, b);
    assert RateAt(s, p).value == Hit(p, c + 1, s[p..b]);
    RateNumberAt(s, p, a, b);
  }

  /** The digits, the optional dot and the digits after it make a rate number. */
  lemma RateNumberAt(s: string, p: nat, a: nat, b: nat)
    requires p < |s| && IsDigit(s[p]) && a == DigitsEnd(s, p)
    requires b == if a < |s| && s[a] == '.' then DigitsEnd(s, a + 1) else a
    ensures IsRateNumber(s[p..b])
  {
    var g := s[p..b];
    forall j | 0 <= j < a - p ensures g[j] != '.' && IsDigit(g[j]) {
      assert g[j] == s[p + j];
    }
    IndexOfDigits2(g, 0, a - p);
    if a < b {
      var frac := g[a - p + 1..];
      forall j | 0 <= j < |frac| ensures IsDigit(frac[j]) {
        assert frac[j] == s[a + 1 + j];
      }
    }
  }

  /** Over a run of digits ending at a dot or at the end, the first dot is where the run ends. */
  lemma IndexOfDigits2(x: string, k: nat, m: nat)
    requires k <= m <= |x| && (m == |x| || x[m] == '.')
    requires forall j :: k <= j < m ==> x[j] != '.'
    ensures IndexOf(x, '.', k) == m
    decreases m - k
  {
    if k < m {
      IndexOfDigits2(x, k + 1, m);
    }
  }

  lemma MatchAtRate(s: string, p: nat)
    requires p <= |s|
    ensures MatchAt(Rate, s, p) == RateAt(s, p)
  {
  }

  lemma MatchAtDollar(s: string, p: nat)
    requires p <= |s|
    ensures MatchAt(Dollar, s, p) == DollarAt(s, p)
  {
  }

  lemma MatchAtTerm(s: string, p: nat)
    requires p <= |s|
    ensures MatchAt(Term, s, p) == TermAt(s, p)
  {
  }

  /** Rates are read as non-negative numbers: a rate below zero cannot be found. */
  lemma RatesNonNegative(text: string)
    ensures forall r | r in RatesIn(text) :: r >= 0.0
  {
  }

  /** `k` groups `,ddd` start at `q`. */
  predicate ThousandsGroups(s: string, q: nat, k: nat) {
    q + 4 * k <= |s|
    && forall j :: 0 <= j < k ==>
      s[q + 4 * j] == ',' && IsDigit(s[q + 4 * j + 1]) && IsDigit(s[q + 4 * j + 2]) && IsDigit(s[q + 4 * j + 3])
  }

  /** The run of groups `,ddd` that `ThousandsEnd` skips from `q` is `k` whole groups. */
  lemma {:induction false} ThousandsEndGroups(s: string, q: nat) returns (k: nat)
    requires q <= |s|
    ensures ThousandsEnd(s, q) == q + 4 * k
    ensures ThousandsGroups(s, q, k)
    decreases |s| - q
  {
    k := 0;
    if q + 4 <= |s| && s[q] == ',' && IsDigit(s[q + 1]) && IsDigit(s[q + 2]) && IsDigit(s[q + 3]) {
      var m := ThousandsEndGroups(s, q + 4);
      k := m + 1;
      forall j | 0 <= j < k
        ensures s[q + 4 * j] == ',' && IsDigit(s[q + 4 * j + 1]) && IsDigit(s[q + 4 * j + 2]) && IsDigit(s[q + 4 * j + 3])
      {
        if j > 0 {
          assert q + 4 * j == (q + 4) + 4 * (j - 1);
        }
      }
    }
  }

  /**
   * The shape `\d{1,3}(?:,\d{3})*(?:\.\d{2})?`: one to three digits, `k` groups
   * `,ddd`, then either the end or `.dd`.
   */
  ghost predicate IsAmountCapture(g: string) {
    exists lead: nat, k: nat | 1 <= lead <= 3 && lead + 4 * k <= |g| ::
      && (forall j :: 0 <= j < lead ==> IsDigit(g[j]))
      && ThousandsGroups(g, lead, k)
      && (|g| == lead + 4 * k
          || (|g| == lead + 4 * k + 3 && g[lead + 4 * k] == '.' && IsDigit(g[lead + 4 * k + 1]) && IsDigit(g[lead + 4 * k + 2])))
  }

  /** Groups found in a text are found in any slice that holds them. */
  lemma ThousandsSlice(s: string, lo: nat, hi: nat, q: nat, k: nat)
    requires lo <= q && q + 4 * k <= hi <= |s| && ThousandsGroups(s, q, k)
    ensures ThousandsGroups(s[lo..hi], q - lo, k)
  {
    var t := s[lo..hi];
    forall j | 0 <= j < k
      ensures t[q - lo + 4 * j] == ',' && IsDigit(t[q - lo + 4 * j + 1]) && IsDigit(t[q - lo + 4 * j + 2]) && IsDigit(t[q - lo + 4 * j + 3])
    {
      assert t[q - lo + 4 * j] == s[q + 4 * j];
      assert t[q - lo + 4 * j + 1] == s[q + 4 * j + 1];
      assert t[q - lo + 4 * j + 2] == s[q + 4 * j + 2];
      assert t[q - lo + 4 * j + 3] == s[q + 4 * j + 3];
    }
  }

  lemma AmountShape(g: string, lead: nat, k: nat)
    requires 1 <= lead <= 3 && lead + 4 * k <= |g|
    requires forall j :: 0 <= j < lead ==> IsDigit(g[j])
    requires ThousandsGroups(g, lead, k)
    requires |g| == lead + 4 * k
      || (|g| == lead + 4 * k + 3 && g[lead + 4 * k] == '.' && IsDigit(g[lead + 4 * k + 1]) && IsDigit(g[lead + 4 * k + 2]))
    ensures IsAmountCapture(g)
  {
  }

  /** What the amount pattern captures at a `$` has the amount shape. */
  lemma DollarAtShape(s: string, p: nat)
    requires p <= |s| && DollarAt(s, p).Some?
    ensures s[p] == '$'
    ensures DollarAt(s, p).value.group == s[p + 1..DollarAt(s, p).value.end]
    ensures IsAmountCapture(DollarAt(s, p).value.group)
  {
    var h := DollarAt(s, p).value;
    var d := DigitsEnd(s, p + 1);
    var a := if d <= p + 4 then d else p + 4;
    var c := ThousandsEnd(s, a);
    var e := if c + 3 <= |s| && s[c] == '.' && IsDigit(s[c + 1]) && IsDigit(s[c + 2]) then c + 3 else c;
    assert h == Hit(p, e, s[p + 1..e]);
    var k := ThousandsEndGroups(s, a);
    AmountSpan(s, p + 1, a, k, e);
  }

  /** One to three digits from `q` to `a`, `k` groups `,ddd`, then optionally `.dd`, up to `e`, have the amount shape. */
  lemma AmountSpan(s: string, q: nat, a: nat, k: nat, e: nat)
    requires q < a <= q + 3 && a <= |s| && forall j :: q <= j < a ==> IsDigit(s[j])
    requires ThousandsGroups(s, a, k) && a + 4 * k <= e <= |s|
    requires e == a + 4 * k
      || (e == a + 4 * k + 3 && s[a + 4 * k] == '.' && IsDigit(s[a + 4 * k + 1]) && IsDigit(s[a + 4 * k + 2]))
    ensures IsAmountCapture(s[q..e])
  {
    var g := s[q..e];
    var lead := a - q;
    var c := a + 4 * k;
    ThousandsSlice(s, q, e, a, k);
    forall j | 0 <= j < lead ensures IsDigit(g[j]) {
      assert g[j] == s[q + j];
    }
    if e == c + 3 {
      assert g[lead + 4 * k] == s[c];
      assert g[lead + 4 * k + 1] == s[c + 1];
      assert g[lead + 4 * k + 2] == s[c + 2];
    }
    AmountShape(g, lead, k);
  }

  /** Every amount the text yields follows a `$` and has the amount shape. */
  lemma AmountCapture(text: string, i: nat)
    requires i < |FindIter(Dollar, text, 0)|
    ensures var h := FindIter(Dollar, text, 0)[i];
      && h.start < h.end <= |text|
      && text[h.start] == '$'
      && h.group == text[h.start + 1..h.end]
      && IsAmountCapture(h.group)
  {
    var h := FindIter(Dollar, text, 0)[i];
    FindIterHit(Dollar, text, 0, i);
    MatchAtDollar(text, h.start);
    DollarAtShape(text, h.start);
  }

  /**
   * Every term the text yields is a run of digits followed, after optional
   * whitespace, by `month` or `year` in any case.
   */
  lemma TermCapture(text: string, i: nat)
    requires i < |FindIter(Term, text, 0)|
    ensures var h := FindIter(Term, text, 0)[i];
      && h.start + |h.group| <= |text|
      && h.group == text[h.start..h.start + |h.group|]
      && h.group != "" && AllDigits(h.group)
      && (LiteralAt("month", text, SpacesEnd(text, h.start + |h.group|), true)
          || LiteralAt("year", text, SpacesEnd(text, h.start + |h.group|), true))
  {
    var h := FindIter(Term, text, 0)[i];
    FindIterHit(Term, text, 0, i);
    MatchAtTerm(text, h.start);
    var a := DigitsEnd(text, h.start);
    assert h.group == text[h.start..a];
    forall j | 0 <= j < |h.group| ensures IsDigit(h.group[j]) {
      assert h.group[j] == text[h.start + j];
    }
  }

  /** With a single `$`, leading the text, the amount pattern matches there and nowhere else. */
  lemma OnlyLeadingDollar(s: string)
    requires |s| > 1 && s[0] == '$' && IsDigit(s[1])
    requires forall k :: 1 <= k < |s| ==> s[k] != '$'
    ensures MatchAt(Dollar, s, 0).Some?
    ensures FindIter(Dollar, s, 0) == [MatchAt(Dollar, s, 0).value]
  {
    var ms := Attempts(Dollar, s);
    MatchAtDollar(s, 0);
    AttemptAt(Dollar, s, 0);
    var h := MatchAt(Dollar, s, 0).value;
    forall k | h.end <= k < |s| ensures ms[k].None? {
      AttemptAt(Dollar, s, k);
      MatchAtDollar(s, k);
    }
    ScanSkip(ms, h.end, |s|);
  }

  lemma {:induction false} RemoveAbsent(s: string, c: char)
    requires c !in s
    ensures Remove(s, c) == s
    decreases |s|
  {
    if s != [] {
      RemoveAbsent(s[1..], c);
    }
  }

  lemma {:induction false} RemoveAppend(a: string, b: string, c: char)
    ensures Remove(a + b, c) == Remove(a, c) + Remove(b, c)
    decreases |a|
  {
    if a != [] {
      assert (a + b)[1..] == a[1..] + b;
      RemoveAppend(a[1..], b, c);
    } else {
      assert a + b == b;
    }
  }

  /** `"$10000"` yields 100: `\d{1,3}` stops after three digits and nothing anchors it at a separator. */
  lemma AmountWithoutSeparators(s: string)
    requires s == "$10000"
    ensures AmountsIn(s) == [100.0]
  {
    OnlyLeadingDollar(s);
    assert DollarAt(s, 0) == Some(Hit(0, 4, s[1..4])) by {
      DigitsEndOf(s, 1, 6);
      assert ThousandsEnd(s, 4) == 4;
    }
    MatchAtDollar(s, 0);
    var g := s[1..4];
    assert Remove(g, ',') == g by {
      assert ',' !in g;
      RemoveAbsent(g, ',');
    }
    assert DigitsValue(g) == 100 by {
      assert DigitsValue(g[..1]) == 1 by {
        assert g[..1][..0] == [];
      }
      assert g[..2][..1] == g[..1];
    }
    assert IndexOf(g, '.', 0) == 3 by {
      IndexOfDigits2(g, 0, 3);
    }
  }

  lemma SeparatorAndCentsMatch(s: string)
    requires s == "$1,250.50"
    ensures FindIter(Dollar, s, 0) == [Hit(0, 9, s[1..9])]
  {
    OnlyLeadingDollar(s);
    assert DollarAt(s, 0) == Some(Hit(0, 9, s[1..9])) by {
      DigitsEndOf(s, 1, 2);
      assert ThousandsEnd(s, 6) == 6;
      assert ThousandsEnd(s, 2) == 6;
    }
    MatchAtDollar(s, 0);
  }

  /** Removing the one separator of a string joins the pieces on either side of it. */
  lemma SeparatorRemoved(g: string, a: string, b: string, c: char)
    requires g == a + [c] + b && c !in a && c !in b
    ensures Remove(g, c) == a + b
  {
    RemoveAppend(a + [c], b, c);
    RemoveAppend(a, [c], c);
    RemoveAbsent(a, c);
    RemoveAbsent(b, c);
    RemoveOnly(c);
    assert a + [] == a;
  }

  lemma RemoveOnly(c: char)
    ensures Remove([c], c) == []
  {
    assert [c][1..] == [];
  }

  lemma CentsValue(r: string)
    requires r == "1250.50"
    ensures DecimalValue(r) == 1250.5
  {
    assert IndexOf(r, '.', 0) == 4 by {
      IndexOfDigits2(r, 0, 4);
    }
    var whole := r[..4];
    assert DigitsValue(whole) == 1250 by {
      assert DigitsValue(whole[..1]) == 1 by {
        assert whole[..1][..0] == [];
      }
      assert whole[..2][..1] == whole[..1];
      assert DigitsValue(whole[..2]) == 12;
      assert whole[..3][..2] == whole[..2];
      assert DigitsValue(whole[..3]) == 125;
      assert whole[..4][..3] == whole[..3];
    }
    var cents := r[5..];
    assert DigitsValue(cents) == 50 by {
      assert DigitsValue(cents[..1]) == 5 by {
        assert cents[..1][..0] == [];
      }
    }
    assert Pow10(2) == 100;
  }

  /** `"$1,250.50"` yields 1250.50: the comma is removed and the cents kept. */
  lemma AmountWithSeparatorAndCents(s: string)
    requires s == "$1,250.50"
    ensures AmountsIn(s) == [1250.5]
  {
    SeparatorAndCentsMatch(s);
    var g := s[1..9];
    SeparatorRemoved(g, "1", "250.50", ',');
    CentsValue(Remove(g, ','));
  }
}
