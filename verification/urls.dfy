/** URL extraction from free text (draxon.py: URL_PATTERN,
    parse_urls_from_text, is_valid_url).

    URL_PATTERN is `https?://[^\s'"<>]+` compiled with IGNORECASE. The regex
    search is modelled directly: a match starts where the (case-insensitive)
    scheme text is followed by at least one URL character and takes the
    longest run of URL characters; the scan resumes after each match. Under
    Python's IGNORECASE the letter s also matches U+017F (long s). */
module Urls {
  import opened Common
  import opened Dedup

  /** A character of the class [^\s'"<>]. */
  predicate IsUrlChar(c: char) {
    !IsSpace(c) && c != '\'' && c != '"' && c != '<' && c != '>'
  }

  /** Case-insensitive match of one pattern letter. */
  predicate LetterMatch(c: char, l: char) {
    LowerChar(c) == l || (l == 's' && c == '\U{017F}')
  }

  /** The text at i begins "http" in any case. */
  predicate HttpAt(text: string, i: nat) {
    i + 4 <= |text| && LetterMatch(text[i], 'h') && LetterMatch(text[i + 1], 't')
    && LetterMatch(text[i + 2], 't') && LetterMatch(text[i + 3], 'p')
  }

  predicate ColonSlashSlashAt(text: string, i: nat) {
    i + 3 <= |text| && text[i..i + 3] == "://"
  }

  /** Length of the scheme `https?://` matched at i (0 when none). */
  function SchemeLen(text: string, i: nat): nat {
    if !HttpAt(text, i) then 0
    else if i + 5 <= |text| && LetterMatch(text[i + 4], 's') && ColonSlashSlashAt(text, i + 5) then 8
    else if ColonSlashSlashAt(text, i + 4) then 7
    else 0
  }

  /** Number of URL characters starting at j. */
  function UrlRun(text: string, j: nat): (n: nat)
    ensures j + n <= |text| || (j > |text| && n == 0)
    ensures forall k :: j <= k < j + n ==> IsUrlChar(text[k])
    ensures j + n < |text| ==> !IsUrlChar(text[j + n])
    decreases |text| - j
  {
    if j < |text| && IsUrlChar(text[j]) then 1 + UrlRun(text, j + 1) else 0
  }

  /** Length of the URL_PATTERN match at i (0 when the pattern does not match there). */
  function MatchLen(text: string, i: nat): (n: nat)
    ensures n > 0 ==> i + n <= |text|
  {
    var k := SchemeLen(text, i);
    if k == 0 then 0
    else
      var run := UrlRun(text, i + k);
      if run == 0 then 0 else k + run
  }

  /** The non-overlapping matches from i on, scanning left to right: where
      a match of length len(j) starts at j the scan resumes after it. */
  function FindWith(text: string, i: nat, len: nat -> nat): seq<string>
    decreases |text| - i
  {
    if i >= |text| then []
    else
      var n := len(i);
      if n > 0 && i + n <= |text| then [text[i..i + n]] + FindWith(text, i + n, len) else FindWith(text, i + 1, len)
  }

  /** URL_PATTERN.findall(text[i..]). */
  function FindUrls(text: string, i: nat): seq<string> {
    FindWith(text, i, j => MatchLen(text, j))
  }

  /** What u.strip().rstrip(').,;?!"\'') removes at the end. */
  predicate TrailingPunct(c: char) {
    c == ')' || c == '.' || c == ',' || c == ';' || c == '?' || c == '!' || c == '"' || c == '\''
  }

  function Clean(u: string): string {
    RTrim(Strip(u), TrailingPunct)
  }

  /** The cleaned matches, empty ones dropped. */
  function Cleaned(found: seq<string>): seq<string>
    decreases |found|
  {
    if found == [] then []
    else
      var c := Clean(found[|found| - 1]);
      Cleaned(found[..|found| - 1]) + (if c != "" then [c] else [])
  }

  function Ident(u: string): string { u }

  /** parse_urls_from_text as a value: cleaned matches, first occurrence kept. */
  function UrlsIn(text: string): seq<string> {
    FirstByKey(Cleaned(FindUrls(text, 0)), Ident)
  }

  /** The text starts with http:// or https://, letters in any case. */
  predicate HasUrlScheme(u: string) {
    HttpAt(u, 0) && (ColonSlashSlashAt(u, 4) || (|u| >= 5 && LetterMatch(u[4], 's') && ColonSlashSlashAt(u, 5)))
  }

  /** No whitespace, quote or angle bracket anywhere. */
  predicate AllUrlChars(u: string) {
    forall k :: 0 <= k < |u| ==> IsUrlChar(u[k])
  }

  /** What every extracted URL looks like. */
  predicate WellFormedUrl(u: string) {
    HasUrlScheme(u) && AllUrlChars(u) && u != [] && !TrailingPunct(u[|u| - 1])
  }

  /** A raw match: the scheme, then at least one URL character. */
  predicate RawMatch(m: string) {
    HasUrlScheme(m) && AllUrlChars(m) && |m| > 7
  }

  /** The text matched at i is a raw match. */
  lemma MatchShape(text: string, i: nat)
    requires MatchLen(text, i) > 0
    ensures RawMatch(text[i..i + MatchLen(text, i)])
  {
    var k := SchemeLen(text, i);
    var run := UrlRun(text, i + k);
    assert k == 7 || k == 8;
    assert run >= 1 && MatchLen(text, i) == k + run;
    var m := text[i..i + k + run];
    SchemeOfSlice(text, i, k, m);
    forall j | 0 <= j < |m| ensures IsUrlChar(m[j]) {
      assert m[j] == text[i + j];
      if j < k {
        SchemeChars(m, k, j);
      }
    }
  }

  /** A match keeps the scheme it was found with. */
  lemma SchemeOfSlice(text: string, i: nat, k: nat, m: string)
    requires (k == 7 || k == 8) && SchemeLen(text, i) == k
    requires i + k < i + |m| <= |text| && m == text[i..i + |m|]
    ensures HasUrlScheme(m) && (k == 7 <==> ColonSlashSlashAt(m, 4))
  {
    assert HttpAt(text, i);
    assert m[..k] == text[i..i + k];
    assert m[0] == text[i] && m[1] == text[i + 1] && m[2] == text[i + 2] && m[3] == text[i + 3];
    assert HttpAt(m, 0);
    if k == 8 {
      assert m[4] == text[i + 4];
      assert m[5..8] == text[i + 5..i + 8];
      assert ColonSlashSlashAt(m, 5);
      assert m[6] == '/';
      assert !ColonSlashSlashAt(m, 4);
    } else {
      assert m[4..7] == text[i + 4..i + 7];
      assert ColonSlashSlashAt(m, 4);
    }
  }

  /** The characters of a scheme are URL characters. */
  lemma SchemeChars(m: string, k: nat, j: nat)
    requires HasUrlScheme(m) && (k == 7 <==> ColonSlashSlashAt(m, 4)) && (k == 7 || k == 8)
    requires j < k <= |m|
    ensures IsUrlChar(m[j])
  {
    if j >= 4 && k == 7 {
      assert m[4..7] == "://" && m[j] == m[4..7][j - 4];
    } else if j >= 5 {
      assert m[5..8] == "://" && m[j] == m[5..8][j - 5];
    }
  }

  /** A property of every match holds of every element found. */
  lemma {:induction false} FoundAll(text: string, i: nat, len: nat -> nat, p: string -> bool)
    requires forall j: nat :: j < |text| && len(j) > 0 && j + len(j) <= |text| ==> p(text[j..j + len(j)])
    ensures forall m :: m in FindWith(text, i, len) ==> p(m)
    decreases |text| - i
  {
    if i < |text| {
      var n := len(i);
      if n > 0 && i + n <= |text| {
        FoundAll(text, i + n, len, p);
      } else {
        FoundAll(text, i + 1, len, p);
      }
    }
  }

  /** Each element of findall is a raw match. */
  lemma FoundShape(text: string, i: nat)
    ensures forall m :: m in FindUrls(text, i) ==> RawMatch(m)
  {
    forall j: nat | j < |text| && MatchLen(text, j) > 0 ensures RawMatch(text[j..j + MatchLen(text, j)]) {
      MatchShape(text, j);
    }
    FoundAll(text, i, j => MatchLen(text, j), RawMatch);
  }

  /** Cleaning a raw match keeps its scheme and leaves a well-formed URL. */
  lemma CleanShape(m: string)
    requires RawMatch(m)
    ensures WellFormedUrl(Clean(m))
  {
    assert IsUrlChar(m[0]) && IsUrlChar(m[|m| - 1]);
    StripOfStripped(m);
    var r := RTrim(m, TrailingPunct);
    assert Clean(m) == r;
    var k := if ColonSlashSlashAt(m, 4) then 7 else 8;
    if k == 7 {
      assert m[6] == m[4..7][2];
    } else {
      assert ColonSlashSlashAt(m, 5);
      assert m[7] == m[5..8][2];
    }
    RTrimKeeps(m, TrailingPunct, k - 1);
    SchemePrefix(m, r, k);
    forall j | 0 <= j < |r| ensures IsUrlChar(r[j]) {
      assert r[j] == m[j];
    }
  }

  /** A prefix of a URL at least as long as its scheme keeps the scheme. */
  lemma SchemePrefix(m: string, r: string, k: nat)
    requires HasUrlScheme(m) && (k == 7 <==> ColonSlashSlashAt(m, 4)) && (k == 7 || k == 8)
    requires k <= |r| <= |m| && r == m[..|r|]
    ensures HasUrlScheme(r)
  {
    assert r[0] == m[0] && r[1] == m[1] && r[2] == m[2] && r[3] == m[3];
    if k == 7 {
      PrefixSlice(m, r, 4, 7);
    } else {
      assert r[4] == m[4];
      PrefixSlice(m, r, 5, 8);
    }
  }

  lemma PrefixSlice(m: string, r: string, a: nat, b: nat)
    requires a <= b <= |r| <= |m| && r == m[..|r|]
    ensures r[a..b] == m[a..b]
  {
  }

  lemma {:induction false} CleanedShape(found: seq<string>)
    requires forall m :: m in found ==> RawMatch(m)
    ensures forall u :: u in Cleaned(found) ==> WellFormedUrl(u)
    decreases |found|
  {
    if found != [] {
      CleanedShape(found[..|found| - 1]);
      CleanShape(found[|found| - 1]);
    }
  }

  lemma CleanedStep(found: seq<string>, i: nat)
    requires i < |found|
    ensures Cleaned(found[..i + 1])
         == Cleaned(found[..i]) + (if Clean(found[i]) != "" then [Clean(found[i])] else [])
  {
    assert found[..i + 1][..i] == found[..i];
  }

  /** One turn of the loop in parse_urls_from_text. */
  lemma ScanStep(found: seq<string>, i: nat)
    requires i < |found|
    ensures var r := FirstByKey(Cleaned(found[..i]), Ident); var u := Clean(found[i]);
      FirstByKey(Cleaned(found[..i + 1]), Ident)
        == if u != "" && u !in KeySet(r, Ident) then r + [u] else r
  {
    var c0 := Cleaned(found[..i]);
    var u := Clean(found[i]);
    CleanedStep(found, i);
    if u == "" {
      assert Cleaned(found[..i + 1]) == c0;
    } else {
      assert Cleaned(found[..i + 1]) == c0 + [u];
      FirstByKeySnoc(c0, u, Ident);
    }
  }

  /** The extracted URLs are distinct and each is well formed. */
  lemma UrlsInShape(text: string)
    ensures forall i, j :: 0 <= i < j < |UrlsIn(text)| ==> UrlsIn(text)[i] != UrlsIn(text)[j]
    ensures forall u :: u in UrlsIn(text) ==> WellFormedUrl(u)
  {
    var c := Cleaned(FindUrls(text, 0));
    FirstByKeyDistinct(c, Ident);
    FoundShape(text, 0);
    CleanedShape(FindUrls(text, 0));
    forall u | u in UrlsIn(text) ensures WellFormedUrl(u) {
      var k :| 0 <= k < |UrlsIn(text)| && UrlsIn(text)[k] == u;
      FirstByKeyFromInput(c, Ident, k);
    }
  }

  /** parse_urls_from_text: scan the matches in order, clean each one and keep
      it when it is non-empty and not seen before. */
  method ParseUrlsFromText(text: string) returns (cleaned: seq<string>)
    ensures cleaned == UrlsIn(text)
    ensures forall i, j :: 0 <= i < j < |cleaned| ==> cleaned[i] != cleaned[j]
    ensures forall u :: u in cleaned ==> WellFormedUrl(u)
  {
    var found := FindUrls(text, 0);
    cleaned := [];
    var seen: set<string> := {};
    var i := 0;
    while i < |found|
      invariant 0 <= i <= |found|
      invariant cleaned == FirstByKey(Cleaned(found[..i]), Ident)
      invariant seen == KeySet(cleaned, Ident)
    {
      var u := Clean(found[i]);
      ScanStep(found, i);
      if u != "" && u !in seen {
        KeySetAppend(cleaned, u, Ident);
        seen := seen + {u};
        cleaned := cleaned + [u];
      }
      i := i + 1;
    }
    assert found[..|found|] == found;
    UrlsInShape(text);
  }

  /** is_valid_url: a lower-case http:// or https:// prefix. */
  predicate IsValidUrl(u: string) {
    StartsWith(u, "http://") || StartsWith(u, "https://")
  }

  /** An extracted URL passes is_valid_url exactly when its scheme is written
      in lower case. */
  lemma ExtractedValidIffLowerScheme(u: string)
    requires WellFormedUrl(u)
    ensures IsValidUrl(u) <==> u[..4] == "http" && (u[4] == ':' || u[4] == 's')
  {
    if u[..4] == "http" && u[4] == 's' && !ColonSlashSlashAt(u, 4) {
      assert u[..8] == "https://";
    } else if u[..4] == "http" && u[4] == ':' {
      assert u[..7] == "http://";
    }
  }
}
