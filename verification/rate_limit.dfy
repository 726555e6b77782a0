/** parse_rate_limit_to_int (draxon.py): a rate text such as "500K" to bytes
    per second. The text is str(value).strip().upper() and must match
    `^(\d+(?:\.\d+)?)([KMG]?)$`; the number is scaled by 1, 1024, 1024^2 or
    1024^3 and truncated to an integer. The number is read exactly (as a
    rational) rather than as a double. */
module RateLimit {
  import opened Common
  import opened PyValue

  /** A non-empty run of the digits 0-9. */
  predicate AllDigits(s: string) {
    s != [] && forall i :: 0 <= i < |s| ==> IsDigit(s[i])
  }

  /** The multiplier a unit letter stands for; 1 for anything else. */
  function UnitMultiplier(c: char): nat {
    if c == 'K' then 1024
    else if c == 'M' then 1024 * 1024
    else if c == 'G' then 1024 * 1024 * 1024
    else 1
  }

  predicate IsUnit(c: char) {
    c == 'K' || c == 'M' || c == 'G'
  }

  /** Index of the first '.' in s. */
  function DotIndex(s: string): (r: Option<nat>)
    ensures r.Some? ==> r.value < |s| && s[r.value] == '.' && forall j :: 0 <= j < r.value ==> s[j] != '.'
    ensures r.None? ==> forall j :: 0 <= j < |s| ==> s[j] != '.'
    decreases |s|
  {
    if s == [] then None
    else if s[0] == '.' then Some(0)
    else match DotIndex(s[1..])
      case None => None
      case Some(p) => Some(p + 1)
  }

  /** The number group `\d+(?:\.\d+)?` as a fraction: numerator and the
      power of ten below it. */
  function NumberValue(num: string): (r: Option<(nat, nat)>)
    ensures r.Some? ==> r.value.1 >= 1
  {
    match DotIndex(num)
    case None => if AllDigits(num) then Some((DigitsValue(num), 1)) else None
    case Some(p) =>
      var whole, frac := num[..p], num[p + 1..];
      if AllDigits(whole) && AllDigits(frac)
      then Some((DigitsValue(whole) * Pow10(|frac|) + DigitsValue(frac), Pow10(|frac|)))
      else None
  }

  /** A text ending in a unit letter: the number before it and the
      multiplier; otherwise the whole text and 1. */
  function SplitUnit(s: string): (string, nat) {
    if s != [] && IsUnit(s[|s| - 1]) then (s[..|s| - 1], UnitMultiplier(s[|s| - 1])) else (s, 1)
  }

  /** The match on an upper-cased, stripped text and the value it gives. */
  function RateOfText(s: string): Option<int> {
    var (num, mul) := SplitUnit(s);
    match NumberValue(num)
    case None => None
    case Some(q) => Some(q.0 * mul / q.1)
  }

  /** parse_rate_limit_to_int: a falsy value has no limit; a list, dict or
      hook prints with '[', '{' or '<' first and never matches. */
  function ParseRate(v: Value): Option<int> {
    if !Truthy(v) || !IsScalar(v) then None
    else RateOfText(UpperAscii(Strip(Str(v))))
  }

  // -------------------------------------------------------------------
  // What the parser promises

  /** The multiplier a unit suffix ("" or one unit letter) stands for. */
  function SuffixMultiplier(unit: string): nat
    requires unit == "" || (|unit| == 1 && IsUnit(unit[0]))
  {
    if unit == "" then 1 else UnitMultiplier(unit[0])
  }

  /** A number ending in a digit, then a unit suffix, splits before the
      suffix. */
  lemma UnitSuffix(num: string, unit: string)
    requires num != [] && IsDigit(num[|num| - 1])
    requires unit == "" || (|unit| == 1 && IsUnit(unit[0]))
    ensures SplitUnit(num + unit) == (num, SuffixMultiplier(unit))
  {
    var s := num + unit;
    if unit == "" {
      assert s == num;
    } else {
      assert s[..|num|] == num && s[|s| - 1] == unit[0];
    }
  }

  /** str(n) followed by a unit letter, or by nothing, gives n times the
      unit's multiplier. */
  lemma RateOfWhole(n: nat, unit: string)
    requires unit == "" || (|unit| == 1 && IsUnit(unit[0]))
    ensures RateOfText(NatToString(n) + unit) == Some(n * SuffixMultiplier(unit))
  {
    var d := NatToString(n);
    UnitSuffix(d, unit);
    NatToStringValue(n);
    assert DotIndex(d) == None by {
      assert forall j :: 0 <= j < |d| ==> d[j] != '.';
    }
    assert NumberValue(d) == Some((n, 1));
    assert RateOfText(d + unit) == Some(n * SuffixMultiplier(unit) / 1);
  }

  /** Digits, '.', digits: the number they make as a fraction. */
  lemma DecimalParts(d: string, p: string)
    requires AllDigits(d) && AllDigits(p)
    ensures NumberValue(d + "." + p) == Some((DigitsValue(d) * Pow10(|p|) + DigitsValue(p), Pow10(|p|)))
  {
    var num := d + "." + p;
    assert num[..|d|] == d && num[|d| + 1..] == p && num[|d|] == '.';
    DotIndexAt(num, |d|);
  }

  /** The first '.' is where the text before holds none. */
  lemma DotIndexAt(s: string, i: nat)
    requires i < |s| && s[i] == '.' && forall j :: 0 <= j < i ==> IsDigit(s[..i][j])
    ensures DotIndex(s) == Some(i)
  {
    assert forall j :: 0 <= j < i ==> s[j] == s[..i][j];
  }

  /** The text w.f, the fraction padded to k digits, as a fraction. */
  lemma DecimalNumber(w: nat, f: nat, k: nat)
    requires 1 <= k && f < Pow10(k)
    ensures var num := NatToString(w) + "." + PadNat(f, k);
      IsDigit(num[|num| - 1]) && NumberValue(num) == Some((w * Pow10(k) + f, Pow10(k)))
  {
    var d, p := NatToString(w), PadNat(f, k);
    PadNatExact(f, k);
    PadNatValue(f, k);
    NatToStringValue(w);
    DecimalParts(d, p);
    var num := d + "." + p;
    assert num[|num| - 1] == p[k - 1];
  }

  /** w.f followed by a unit gives the exact product truncated: with a
      fraction of k digits, floor((w * 10^k + f) * multiplier / 10^k). */
  lemma RateOfDecimal(w: nat, f: nat, k: nat, unit: string)
    requires 1 <= k && f < Pow10(k)
    requires unit == "" || (|unit| == 1 && IsUnit(unit[0]))
    ensures RateOfText(NatToString(w) + "." + PadNat(f, k) + unit)
         == Some((w * Pow10(k) + f) * SuffixMultiplier(unit) / Pow10(k))
  {
    DecimalNumber(w, f, k);
    UnitSuffix(NatToString(w) + "." + PadNat(f, k), unit);
  }

  /** A non-empty text is matched after stripping and upper-casing. */
  lemma ParseRateText(t: string)
    requires t != []
    ensures ParseRate(VStr(t)) == RateOfText(UpperAscii(Strip(t)))
  {
  }

  /** Upper-casing ignores the case the text had. */
  lemma UpperOfLower(s: string)
    ensures UpperAscii(LowerAscii(s)) == UpperAscii(s)
  {
    assert forall i :: 0 <= i < |s| ==> UpperChar(LowerChar(s[i])) == UpperChar(s[i]);
  }

  /** Surrounding whitespace and letter case do not matter. */
  lemma RateTrimmedAnyCase(s: string, pre: string, post: string)
    requires forall i :: 0 <= i < |pre| ==> IsSpace(pre[i])
    requires forall i :: 0 <= i < |post| ==> IsSpace(post[i])
    requires IsStripped(s) && s != []
    ensures ParseRate(VStr(pre + LowerAscii(s) + post)) == ParseRate(VStr(s))
  {
    var low := LowerAscii(s);
    assert IsStripped(low) && low != [] by {
      assert low[0] == LowerChar(s[0]) && low[|low| - 1] == LowerChar(s[|s| - 1]);
    }
    StripPadded(low, pre, post);
    StripOfStripped(s);
    UpperOfLower(s);
    ParseRateText(pre + low + post);
    ParseRateText(s);
  }

  /** Stripping a stripped text with blanks around it gives it back. */
  lemma StripPadded(s: string, pre: string, post: string)
    requires forall i :: 0 <= i < |pre| ==> IsSpace(pre[i])
    requires forall i :: 0 <= i < |post| ==> IsSpace(post[i])
    requires IsStripped(s) && s != []
    ensures Strip(pre + s + post) == s
  {
    var t := pre + s + post;
    LTrimPrefix(pre, s + post);
    assert t == pre + (s + post);
    StripTrailingSpace(s, post);
    assert LTrim(s + post, IsSpace) == s + post;
  }

  lemma {:induction false} LTrimPrefix(pre: string, rest: string)
    requires forall i :: 0 <= i < |pre| ==> IsSpace(pre[i])
    ensures LTrim(pre + rest, IsSpace) == LTrim(rest, IsSpace)
    decreases |pre|
  {
    if pre != [] {
      assert (pre + rest)[0] == pre[0];
      assert (pre + rest)[1..] == pre[1..] + rest;
      LTrimPrefix(pre[1..], rest);
    } else {
      assert pre + rest == rest;
    }
  }

  /** A text with a character other than a digit, '.' or a final unit
      letter sets no limit. */
  lemma RateRejectsOtherChars(s: string, i: nat)
    requires i < |s| && !IsDigit(s[i]) && s[i] != '.' && !(i == |s| - 1 && IsUnit(s[i]))
    ensures RateOfText(s) == None
  {
    var num := SplitUnit(s).0;
    assert i < |num| && num[i] == s[i];
    if NumberValue(num).Some? {
      NumberChars(num, i);
    }
  }

  /** Every character of a number is a digit or '.'. */
  lemma NumberChars(num: string, i: nat)
    requires NumberValue(num).Some? && i < |num|
    ensures IsDigit(num[i]) || num[i] == '.'
  {
    match DotIndex(num)
    case None =>
    case Some(p) =>
      if i < p {
        assert num[i] == num[..p][i];
      } else if i > p {
        assert num[i] == num[p + 1..][i - p - 1];
      }
  }

  /** "500K", "1M" and "2" give 512000, 1048576 and 2. */
  lemma RateExamples(k500: string, m1: string, two: string)
    requires k500 == "500K" && m1 == "1M" && two == "2"
    ensures RateOfText(k500) == Some(512000)
    ensures RateOfText(m1) == Some(1048576)
    ensures RateOfText(two) == Some(2)
  {
    assert NatToString(500) + "K" == k500;
    RateOfWhole(500, "K");
    assert NatToString(1) + "M" == m1;
    RateOfWhole(1, "M");
    assert NatToString(2) + "" == two;
    RateOfWhole(2, "");
  }

  /** A number starts with a digit. */
  lemma NumberNeedsLeadingDigit(num: string)
    requires num == [] || !IsDigit(num[0])
    ensures NumberValue(num) == None
  {
    match DotIndex(num)
    case None =>
    case Some(p) =>
      if p > 0 {
        assert num[..p][0] == num[0];
      }
  }

  /** Only a text that starts with a digit sets a limit. */
  lemma RateNeedsLeadingDigit(s: string)
    requires s == [] || !IsDigit(s[0])
    ensures RateOfText(s) == None
  {
    var num := SplitUnit(s).0;
    if num != [] {
      assert num[0] == s[0];
    }
    NumberNeedsLeadingDigit(num);
  }

  /** A stripped text whose first character is not a digit, such as
      "bogus", sets no limit. */
  lemma RateRejected(t: string)
    requires t != [] && IsStripped(t) && !IsDigit(t[0])
    ensures ParseRate(VStr(t)) == None
  {
    StripOfStripped(t);
    ParseRateText(t);
    var up := UpperAscii(t);
    assert up[0] == UpperChar(t[0]);
    RateNeedsLeadingDigit(up);
  }

  /** The empty text, None and any other falsy value set no limit. */
  lemma RateFalsy(v: Value)
    requires !Truthy(v)
    ensures ParseRate(v) == None
  {
  }
}
