/** Text helpers shared by the model: Python's whitespace class, strip/rstrip,
    str.split/str.join on one separator character, substring search, ASCII
    lower-casing and decimal text for integers. */
module Common {

  datatype Option<+T> = None | Some(value: T) {
    function GetOr(default: T): T {
      match this
      case Some(v) => v
      case None => default
    }
  }

  /** The characters for which Python's str.isspace() holds; the regex class
      \s of a str pattern is the same set. */
  predicate IsSpace(c: char) {
    var n := c as int;
    (9 <= n <= 13) || (28 <= n <= 32) || n == 0x85 || n == 0xA0 || n == 0x1680
    || (0x2000 <= n <= 0x200A) || n == 0x2028 || n == 0x2029 || n == 0x202F
    || n == 0x205F || n == 0x3000
  }

  predicate NoSpace(s: string) {
    forall i :: 0 <= i < |s| ==> !IsSpace(s[i])
  }

  /** s has no whitespace at either end: what str.strip() leaves. */
  predicate IsStripped(s: string) {
    s == [] || (!IsSpace(s[0]) && !IsSpace(s[|s| - 1]))
  }

  /** str.lstrip(): drop leading characters in `drop`. */
  function LTrim(s: string, drop: char -> bool): (r: string)
    ensures |r| <= |s| && r == s[|s| - |r|..]
    ensures r == [] || !drop(r[0])
    ensures forall i :: 0 <= i < |s| - |r| ==> drop(s[i])
    decreases |s|
  {
    if s != [] && drop(s[0]) then
      var r := LTrim(s[1..], drop);
      assert s[1..][|s| - 1 - |r|..] == s[|s| - |r|..];
      assert forall i :: 1 <= i < |s| - |r| ==> s[i] == s[1..][i - 1];
      r
    else s
  }

  /** str.rstrip(chars): drop trailing characters in `drop`. */
  function RTrim(s: string, drop: char -> bool): (r: string)
    ensures |r| <= |s| && r == s[..|r|]
    ensures r == [] || !drop(r[|r| - 1])
    ensures forall i :: |r| <= i < |s| ==> drop(s[i])
    decreases |s|
  {
    if s != [] && drop(s[|s| - 1]) then RTrim(s[..|s| - 1], drop) else s
  }

  /** rstrip keeps a character it may not drop, and everything before it. */
  lemma RTrimKeeps(s: string, drop: char -> bool, i: nat)
    requires i < |s| && !drop(s[i])
    ensures i < |RTrim(s, drop)| && RTrim(s, drop)[..i + 1] == s[..i + 1]
  {
  }

  /** str.strip() with no argument. */
  function Strip(s: string): (r: string)
    ensures IsStripped(r)
    ensures Contains(s, r)
  {
    var l := LTrim(s, IsSpace);
    var r := RTrim(l, IsSpace);
    assert r == s[|s| - |l|..][..|r|] == s[|s| - |l|..|s| - |l| + |r|];
    assert OccursAt(s, r, |s| - |l|);
    r
  }

  /** strip() removes exactly the whitespace at both ends: the result sits
      in s with only whitespace before and after it, and it is empty
      exactly when s is all whitespace. */
  lemma StripTrims(s: string)
    ensures exists i :: (OccursAt(s, Strip(s), i)
                         && (forall k :: 0 <= k < i ==> IsSpace(s[k]))
                         && (forall k :: i + |Strip(s)| <= k < |s| ==> IsSpace(s[k])))
    ensures Strip(s) == [] <==> forall k :: 0 <= k < |s| ==> IsSpace(s[k])
  {
    var l := LTrim(s, IsSpace);
    var r := RTrim(l, IsSpace);
    var i := |s| - |l|;
    TrimLayout(s, l, r, IsSpace);
    assert Strip(s) == r;
    if r != [] {
      assert s[i] == r[0];
    }
  }

  /** A suffix of s after dropped characters, cut before dropped
      characters, is the piece of s between them. */
  lemma TrimLayout(s: string, l: string, r: string, drop: char -> bool)
    requires |l| <= |s| && l == s[|s| - |l|..] && |r| <= |l| && r == l[..|r|]
    requires forall k :: |r| <= k < |l| ==> drop(l[k])
    ensures OccursAt(s, r, |s| - |l|)
    ensures forall k :: |s| - |l| + |r| <= k < |s| ==> drop(s[k])
  {
    var i := |s| - |l|;
    assert r == s[i..i + |r|];
    forall k | i + |r| <= k < |s|
      ensures drop(s[k])
    {
      assert s[k] == l[k - i];
    }
  }

  lemma StripOfStripped(s: string)
    requires IsStripped(s)
    ensures Strip(s) == s
  {
  }

  /** Stripping a stripped non-empty text followed by blanks gives it back. */
  lemma StripTrailingSpace(u: string, blanks: string)
    requires IsStripped(u) && u != []
    requires forall i :: 0 <= i < |blanks| ==> IsSpace(blanks[i])
    ensures Strip(u + blanks) == u
  {
    var l := LTrim(u + blanks, IsSpace);
    assert l == u + blanks;
    assert (u + blanks)[..|u|] == u;
  }

  /** ASCII upper-case letters mapped to lower case; other characters kept. */
  function LowerChar(c: char): char {
    if 'A' <= c <= 'Z' then (c as int + 32) as char else c
  }

  function LowerAscii(s: string): (r: string)
    ensures |r| == |s|
    ensures forall i :: 0 <= i < |s| ==> r[i] == LowerChar(s[i])
  {
    seq(|s|, i requires 0 <= i < |s| => LowerChar(s[i]))
  }

  /** Text without upper-case ASCII letters is its own lower case. */
  lemma LowerOfLower(s: string)
    requires forall i :: 0 <= i < |s| ==> !('A' <= s[i] <= 'Z')
    ensures LowerAscii(s) == s
  {
  }

  function UpperChar(c: char): char {
    if 'a' <= c <= 'z' then (c as int - 32) as char else c
  }

  function UpperAscii(s: string): (r: string)
    ensures |r| == |s|
    ensures forall i :: 0 <= i < |s| ==> r[i] == UpperChar(s[i])
  {
    seq(|s|, i requires 0 <= i < |s| => UpperChar(s[i]))
  }

  predicate StartsWith(s: string, prefix: string) {
    |prefix| <= |s| && s[..|prefix|] == prefix
  }

  predicate EndsWith(s: string, suffix: string) {
    |suffix| <= |s| && s[|s| - |suffix|..] == suffix
  }

  /** `pat` occurs in `s` starting at index i. */
  predicate OccursAt(s: string, pat: string, i: int) {
    0 <= i && i + |pat| <= |s| && s[i..i + |pat|] == pat
  }

  predicate Contains(s: string, pat: string) {
    exists i :: 0 <= i <= |s| && OccursAt(s, pat, i)
  }

  /** Leftmost index at or after `from` where `pat` occurs (str.find). */
  function FindFrom(s: string, pat: string, from: nat): (r: Option<nat>)
    ensures r.Some? ==> from <= r.value && OccursAt(s, pat, r.value)
    ensures r.Some? ==> forall k :: from <= k < r.value ==> !OccursAt(s, pat, k)
    ensures r.None? ==> forall k :: from <= k ==> !OccursAt(s, pat, k)
    decreases |s| - from
  {
    if from + |pat| > |s| then None
    else if s[from..from + |pat|] == pat then Some(from)
    else FindFrom(s, pat, from + 1)
  }

  function Find(s: string, pat: string): (r: Option<nat>)
    ensures r.Some? ==> OccursAt(s, pat, r.value)
    ensures r.Some? ==> forall k :: 0 <= k < r.value ==> !OccursAt(s, pat, k)
    ensures r.None? <==> !Contains(s, pat)
  {
    FindFrom(s, pat, 0)
  }

  /** str.split(sep, 1): the text before the first `sep`, and the rest after
      it when there is one. */
  function SplitFirst(s: string, sep: string): (r: (string, Option<string>))
    ensures r.1.None? ==> r.0 == s && !Contains(s, sep)
    ensures r.1.Some? ==> s == r.0 + sep + r.1.value
    ensures r.1.Some? ==> forall k :: 0 <= k < |r.0| ==> !OccursAt(s, sep, k)
  {
    match Find(s, sep)
    case None => (s, None)
    case Some(i) =>
      assert s == s[..i] + sep + s[i + |sep|..];
      (s[..i], Some(s[i + |sep|..]))
  }

  /** The text before the first separator holds no separator. */
  lemma SplitFirstBeforeFree(s: string, sep: string)
    requires sep != [] && SplitFirst(s, sep).1.Some?
    ensures !Contains(SplitFirst(s, sep).0, sep)
  {
    var r := SplitFirst(s, sep);
    var before := r.0;
    assert s == before + sep + r.1.value;
    forall k | 0 <= k <= |before| && OccursAt(before, sep, k)
      ensures false
    {
      assert k < |before|;
      assert s[k..k + |sep|] == before[k..k + |sep|];
      assert OccursAt(s, sep, k);
    }
  }

  /** SplitFirst finds the separator right after a prefix that holds none of
      it and whose end cannot start it. */
  lemma SplitFirstAt(pre: string, sep: string, post: string)
    requires |sep| == 2 && sep[0] == sep[1]
    requires !Contains(pre, sep)
    requires pre == [] || pre[|pre| - 1] != sep[0]
    ensures SplitFirst(pre + sep + post, sep) == (pre, Some(post))
  {
    var s := pre + sep + post;
    assert OccursAt(s, sep, |pre|);
    forall k | 0 <= k < |pre|
      ensures !OccursAt(s, sep, k)
    {
      if k + 2 <= |pre| {
        assert s[k..k + 2] == pre[k..k + 2];
        assert !OccursAt(pre, sep, k);
      } else {
        assert s[k] == pre[|pre| - 1];
      }
    }
  }

  /** str.split(sep) for a one-character separator. */
  function Split(s: string, sep: char): (r: seq<string>)
    ensures |r| >= 1
    decreases |s|
  {
    if s == [] then [""]
    else
      var rest := Split(s[1..], sep);
      if s[0] == sep then [""] + rest else [[s[0]] + rest[0]] + rest[1..]
  }

  /** sep.join(parts). */
  function Join(parts: seq<string>, sep: char): string
    decreases |parts|
  {
    if parts == [] then ""
    else if |parts| == 1 then parts[0]
    else parts[0] + [sep] + Join(parts[1..], sep)
  }

  lemma {:induction false} SplitNoSep(s: string, sep: char)
    requires sep !in s
    ensures Split(s, sep) == [s]
    decreases |s|
  {
    if s != [] {
      SplitNoSep(s[1..], sep);
      assert [s[0]] + s[1..] == s;
    }
  }

  lemma {:induction false} SplitAfterPiece(a: string, sep: char, b: string)
    requires sep !in a
    ensures Split(a + [sep] + b, sep) == [a] + Split(b, sep)
    decreases |a|
  {
    if a == [] {
      assert a + [sep] + b == [sep] + b;
      assert ([sep] + b)[1..] == b;
    } else {
      assert (a + [sep] + b)[1..] == a[1..] + [sep] + b;
      SplitAfterPiece(a[1..], sep, b);
      assert [a[0]] + a[1..] == a;
    }
  }

  /** Joining pieces free of the separator and splitting again gives them back. */
  lemma {:induction false} SplitJoin(parts: seq<string>, sep: char)
    requires |parts| >= 1
    requires forall i :: 0 <= i < |parts| ==> sep !in parts[i]
    ensures Split(Join(parts, sep), sep) == parts
    decreases |parts|
  {
    if |parts| == 1 {
      SplitNoSep(parts[0], sep);
    } else {
      SplitJoin(parts[1..], sep);
      SplitAfterPiece(parts[0], sep, Join(parts[1..], sep));
    }
  }

  /** Every piece of a split is free of the separator. */
  lemma {:induction false} SplitPiecesFree(s: string, sep: char)
    ensures forall i :: 0 <= i < |Split(s, sep)| ==> sep !in Split(s, sep)[i]
    decreases |s|
  {
    if s != [] {
      SplitPiecesFree(s[1..], sep);
    }
  }

  /** A one-character pattern occurs exactly when the character is there. */
  lemma ContainsChar(s: string, c: char)
    ensures Contains(s, [c]) <==> c in s
  {
    if c in s {
      var i :| 0 <= i < |s| && s[i] == c;
      assert OccursAt(s, [c], i);
    }
    if Contains(s, [c]) {
      var i :| 0 <= i <= |s| && OccursAt(s, [c], i);
      assert s[i] == s[i..i + 1][0] == c;
    }
  }

  /** Containment is transitive. */
  lemma ContainsTrans(a: string, b: string, c: string)
    requires Contains(a, b) && Contains(b, c)
    ensures Contains(a, c)
  {
    var i :| 0 <= i <= |a| && OccursAt(a, b, i);
    var j :| 0 <= j <= |b| && OccursAt(b, c, j);
    forall t | 0 <= t < |c| ensures a[i + j + t] == c[t] {
      assert c[t] == b[j + t] == a[i + j + t];
    }
    assert a[i + j..i + j + |c|] == c;
    assert OccursAt(a, c, i + j);
  }

  /** A character missing from a text is missing from every part of it. */
  lemma ContainsCharFree(a: string, b: string, c: char)
    requires Contains(a, b) && c !in a
    ensures c !in b
  {
    var i :| 0 <= i <= |a| && OccursAt(a, b, i);
    forall j | 0 <= j < |b| ensures b[j] != c {
      assert b[j] == a[i + j];
    }
  }

  /** SplitFirst on a one-character separator absent from the prefix. */
  lemma SplitFirstAtChar(pre: string, c: char, post: string)
    requires c !in pre
    ensures SplitFirst(pre + [c] + post, [c]) == (pre, Some(post))
  {
    var s := pre + [c] + post;
    assert OccursAt(s, [c], |pre|);
    forall k | 0 <= k < |pre| ensures !OccursAt(s, [c], k) {
      assert s[k] == pre[k];
    }
  }

  /** A stripped text followed by a space still holds no "||" when it held none. */
  lemma NoDoubleBarAfterSpace(u: string)
    requires !Contains(u, "||")
    ensures !Contains(u + " ", "||")
  {
    var s := u + " ";
    forall k | 0 <= k <= |s| && OccursAt(s, "||", k) ensures false {
      assert s[k + 1] == s[k..k + 2][1] == '|';
      assert k + 2 <= |u|;
      assert u[k..k + 2] == s[k..k + 2];
      assert OccursAt(u, "||", k);
    }
  }

  /** The first and last characters of a join are those of its first and
      last parts. */
  lemma {:induction false} JoinEnds(parts: seq<string>, sep: char)
    requires |parts| >= 1 && forall i :: 0 <= i < |parts| ==> parts[i] != []
    ensures var j := Join(parts, sep); var l := parts[|parts| - 1];
      j != [] && j[0] == parts[0][0] && j[|j| - 1] == l[|l| - 1]
    decreases |parts|
  {
    if |parts| > 1 {
      JoinEnds(parts[1..], sep);
    }
  }

  /** A join of stripped non-empty parts is stripped. */
  lemma JoinStripped(parts: seq<string>, sep: char)
    requires |parts| >= 1
    requires forall i :: 0 <= i < |parts| ==> parts[i] != [] && IsStripped(parts[i])
    ensures IsStripped(Join(parts, sep)) && Join(parts, sep) != []
  {
    JoinEnds(parts, sep);
  }

  /** A join of parts free of a character is free of it, when the separator
      is another character. */
  lemma {:induction false} JoinFree(parts: seq<string>, sep: char, c: char)
    requires c != sep
    requires forall i :: 0 <= i < |parts| ==> c !in parts[i]
    ensures c !in Join(parts, sep)
    decreases |parts|
  {
    if |parts| > 1 {
      JoinFree(parts[1..], sep, c);
    }
  }

  // ---------------------------------------------------------------------
  // Decimal text

  function DigitChar(d: nat): char
    requires d < 10
  {
    ('0' as int + d) as char
  }

  predicate IsDigit(c: char) {
    '0' <= c <= '9'
  }

  function DigitValue(c: char): nat
    requires IsDigit(c)
  {
    c as int - '0' as int
  }

  /** Decimal text of a natural number, without leading zeros (str(n)). */
  function NatToString(n: nat): (r: string)
    ensures |r| >= 1
    ensures forall i :: 0 <= i < |r| ==> IsDigit(r[i])
    decreases n
  {
    if n < 10 then [DigitChar(n)] else NatToString(n / 10) + [DigitChar(n % 10)]
  }

  /** str(i) for a Python int. */
  function IntToString(i: int): string {
    if i < 0 then "-" + NatToString(-i) else NatToString(i)
  }

  /** Value of a string of decimal digits. */
  function DigitsValue(s: string): nat
    requires forall i :: 0 <= i < |s| ==> IsDigit(s[i])
    decreases |s|
  {
    if s == [] then 0 else DigitsValue(s[..|s| - 1]) * 10 + DigitValue(s[|s| - 1])
  }

  lemma {:induction false} NatToStringValue(n: nat)
    ensures DigitsValue(NatToString(n)) == n
    decreases n
  {
    if n >= 10 {
      NatToStringValue(n / 10);
      var s := NatToString(n);
      assert s[..|s| - 1] == NatToString(n / 10);
    }
  }

  /** Zero-padded decimal text of at least `width` characters ('{n:0Wd}'). */
  function PadNat(n: nat, width: nat): (r: string)
    ensures |r| >= width
    ensures forall i :: 0 <= i < |r| ==> IsDigit(r[i])
  {
    var d := NatToString(n);
    if |d| >= width then d else seq(width - |d|, _ => '0') + d
  }

  lemma {:induction false} LeadingZerosValue(z: nat, s: string)
    requires forall i :: 0 <= i < |s| ==> IsDigit(s[i])
    ensures var t := seq(z, _ => '0') + s;
            (forall i :: 0 <= i < |t| ==> IsDigit(t[i])) && DigitsValue(t) == DigitsValue(s)
    decreases |s|
  {
    var t := seq(z, _ => '0') + s;
    if s == [] {
      ZerosValue(z);
      assert t == seq(z, _ => '0');
    } else {
      LeadingZerosValue(z, s[..|s| - 1]);
      assert t[..|t| - 1] == seq(z, _ => '0') + s[..|s| - 1];
    }
  }

  lemma {:induction false} ZerosValue(z: nat)
    ensures DigitsValue(seq(z, _ => '0')) == 0
    decreases z
  {
    if z > 0 {
      ZerosValue(z - 1);
      assert seq(z, _ => '0')[..z - 1] == seq(z - 1, _ => '0');
    }
  }

  lemma PadNatValue(n: nat, width: nat)
    ensures DigitsValue(PadNat(n, width)) == n
  {
    var d := NatToString(n);
    NatToStringValue(n);
    if |d| < width {
      LeadingZerosValue(width - |d|, d);
    }
  }

  /** A number below 10^w pads to exactly w characters. */
  lemma {:induction false} NatToStringLength(n: nat, w: nat)
    requires 1 <= w && n < Pow10(w)
    ensures |NatToString(n)| <= w
    decreases w
  {
    if n >= 10 {
      assert w >= 2;
      NatToStringLength(n / 10, w - 1);
    }
  }

  function Pow10(k: nat): (r: nat)
    ensures r >= 1
  {
    if k == 0 then 1 else 10 * Pow10(k - 1)
  }

  lemma PadNatExact(n: nat, width: nat)
    requires 1 <= width && n < Pow10(width)
    ensures |PadNat(n, width)| == width
  {
    NatToStringLength(n, width);
  }
}
