/** Per-URL override tokens `URL||flag,key=val` (draxon.py: parse_url_spec,
    the token loop that resolves each input line to a URL, and the editor
    line that writes a (URL, overrides) pair back out and parses it again). */
module UrlSpec {
  import opened Common
  import opened PyValue
  import opened Urls

  /** The bare words that parse_url_spec recognises, in lower case. */
  predicate IsKeyword(low: string) {
    low == "audio" || low == "extract_audio" || low == "no-audio" || low == "noaudio"
    || low == "playlist" || low == "play" || low == "no-playlist" || low == "noplay"
  }

  /** What a bare word (no '=') assigns. */
  function BareEntry(item: string): (r: Entry)
    ensures r.val.VBool?
    ensures !r.val.b ==> r.key == "audio" || r.key == "playlist"
    ensures !IsKeyword(LowerAscii(item)) ==> r == Entry(item, VBool(true))
    ensures IsKeyword(LowerAscii(item)) ==> r.key == "audio" || r.key == "playlist"
  {
    var low := LowerAscii(item);
    if low == "audio" || low == "extract_audio" then Entry("audio", VBool(true))
    else if low == "no-audio" || low == "noaudio" then Entry("audio", VBool(false))
    else if low == "playlist" || low == "play" then Entry("playlist", VBool(true))
    else if low == "no-playlist" || low == "noplay" then Entry("playlist", VBool(false))
    else Entry(item, VBool(true))
  }

  /** What one comma-separated item assigns: nothing for a blank item, key and
      value text around the first '=', a boolean for a bare keyword, True under
      its own name for any other bare word. */
  function ItemEntry(raw: string): Option<Entry> {
    var item := Strip(raw);
    if item == "" then None
    else
      var kv := SplitFirst(item, "=");
      if kv.1.Some? then Some(Entry(Strip(kv.0), VStr(Strip(kv.1.value))))
      else Some(BareEntry(item))
  }

  /** A blank item assigns nothing; an item with '=' assigns text; any other
      item assigns a boolean, and False only to "audio" or "playlist". */
  lemma ItemEntryShape(raw: string)
    ensures ItemEntry(raw).None? <==> Strip(raw) == ""
    ensures ItemEntry(raw).Some? ==> (ItemEntry(raw).value.val.VStr? <==> '=' in Strip(raw))
    ensures ItemEntry(raw).Some? ==> ItemEntry(raw).value.val.VStr? || ItemEntry(raw).value.val.VBool?
    ensures ItemEntry(raw).Some? && ItemEntry(raw).value.val == VBool(false)
            ==> ItemEntry(raw).value.key == "audio" || ItemEntry(raw).value.key == "playlist"
  {
    ContainsChar(Strip(raw), '=');
  }

  /** The overrides dict after one more item. */
  function ApplyItem(ov: Dict, raw: string): Dict {
    match ItemEntry(raw)
    case None => ov
    case Some(e) => Set(ov, e.key, e.val)
  }

  /** The overrides dict after the items, in order. */
  function ApplyItems(ov: Dict, items: seq<string>): Dict
    decreases |items|
  {
    if items == [] then ov else ApplyItem(ApplyItems(ov, items[..|items| - 1]), items[|items| - 1])
  }

  lemma ApplyItemsStep(ov: Dict, items: seq<string>, i: nat)
    requires i < |items|
    ensures ApplyItems(ov, items[..i + 1]) == ApplyItem(ApplyItems(ov, items[..i]), items[i])
  {
    assert items[..i + 1][..i] == items[..i];
  }

  /** parse_url_spec as a value. */
  function ParseSpec(token: string): (string, Dict) {
    var parts := SplitFirst(token, "||");
    (Strip(parts.0), if parts.1.Some? then SpecOverrides(Strip(parts.1.value)) else [])
  }

  /** The overrides dict of the stripped text after "||". */
  function SpecOverrides(spec: string): Dict {
    if spec == "" then [] else ApplyItems([], Split(spec, ','))
  }

  /** parse_url_spec: split on the first "||", then fill the overrides dict
      item by item. */
  method ParseUrlSpec(token: string) returns (url: string, overrides: Dict)
    ensures url == ParseSpec(token).0 && overrides == ParseSpec(token).1
  {
    var parts := SplitFirst(token, "||");
    url := Strip(parts.0);
    overrides := ParseOverrides(parts.1);
  }

  /** The overrides of the text after "||", when there is one. */
  method ParseOverrides(rest: Option<string>) returns (overrides: Dict)
    ensures overrides == if rest.Some? then SpecOverrides(Strip(rest.value)) else []
  {
    overrides := [];
    if rest.Some? {
      var spec := Strip(rest.value);
      if spec != "" {
        overrides := FillOverrides(Split(spec, ','));
      }
    }
  }

  /** The loop of parse_url_spec over the comma-separated items: a blank
      item is skipped, "k=v" assigns text, a bare word a boolean. */
  method FillOverrides(items: seq<string>) returns (overrides: Dict)
    ensures overrides == ApplyItems([], items)
  {
    overrides := [];
    var i := 0;
    while i < |items|
      invariant 0 <= i <= |items|
      invariant overrides == ApplyItems([], items[..i])
    {
      var item := Strip(items[i]);
      ApplyItemsStep([], items, i);
      if item != "" {
        var kv := SplitFirst(item, "=");
        if kv.1.Some? {
          overrides := Set(overrides, Strip(kv.0), VStr(Strip(kv.1.value)));
        } else {
          var e := BareEntry(item);
          overrides := Set(overrides, e.key, e.val);
        }
      }
      i := i + 1;
    }
    assert items[..|items|] == items;
  }

  // -------------------------------------------------------------------
  // What parse_url_spec promises

  /** A token without "||" is all URL and carries no overrides. */
  lemma NoSeparatorNoOverrides(token: string)
    requires !Contains(token, "||")
    ensures ParseSpec(token) == (Strip(token), [])
  {
  }

  /** The value the last item naming k assigns to it, if any item does. */
  function LastWrite(items: seq<string>, k: string): Option<Value>
    decreases |items|
  {
    if items == [] then None
    else
      var e := ItemEntry(items[|items| - 1]);
      if e.Some? && e.value.key == k then Some(e.value.val) else LastWrite(items[..|items| - 1], k)
  }

  /** Later items overwrite earlier ones: every key holds what the last item
      naming it assigned, and keys no item names keep their old value. */
  lemma {:induction false} ApplyItemsGet(ov: Dict, items: seq<string>, k: string)
    ensures Get(ApplyItems(ov, items), k) == if LastWrite(items, k).Some? then LastWrite(items, k) else Get(ov, k)
    decreases |items|
  {
    if items != [] {
      ApplyItemsGet(ov, items[..|items| - 1], k);
    }
  }

  /** Keywords are recognised in any letter case. */
  lemma KeywordAnyCase(a: string, b: string)
    requires !Contains(Strip(a), "=") && !Contains(Strip(b), "=")
    requires LowerAscii(Strip(a)) == LowerAscii(Strip(b)) && IsKeyword(LowerAscii(Strip(a)))
    ensures ItemEntry(a) == ItemEntry(b) && ItemEntry(a).Some?
  {
    assert |Strip(a)| == |LowerAscii(Strip(a))| > 0;
    assert |Strip(b)| == |LowerAscii(Strip(b))| > 0;
    BareItem(a);
    BareItem(b);
    BareKeyword(Strip(a), Strip(b));
  }

  /** An item without '=' assigns what its bare word does. */
  lemma BareItem(raw: string)
    requires Strip(raw) != "" && !Contains(Strip(raw), "=")
    ensures ItemEntry(raw) == Some(BareEntry(Strip(raw)))
  {
    var r := SplitFirst(Strip(raw), "=");
    assert r.1.Some? ==> OccursAt(Strip(raw), "=", |r.0|);
  }

  /** A keyword's entry depends only on its lower-case form. */
  lemma BareKeyword(x: string, y: string)
    requires LowerAscii(x) == LowerAscii(y) && IsKeyword(LowerAscii(x))
    ensures BareEntry(x) == BareEntry(y)
  {
  }

  // -------------------------------------------------------------------
  // The editor line (draxon.py:448) and its re-parse (draxon.py:450-457)

  /** One override written back out: `k=v` for a value, `k` for True and
      `no-k` for False. */
  function ItemText(e: Entry): string
    requires IsScalar(e.val)
  {
    match e.val
    case VBool(b) => if b then e.key else "no-" + e.key
    case _ => e.key + "=" + Str(e.val)
  }

  predicate ScalarValues(ov: seq<Entry>) {
    forall i :: 0 <= i < |ov| ==> IsScalar(ov[i].val)
  }

  function ItemTexts(ov: seq<Entry>): (r: seq<string>)
    requires ScalarValues(ov)
    ensures |r| == |ov| && forall i :: 0 <= i < |ov| ==> r[i] == ItemText(ov[i])
  {
    seq(|ov|, i requires 0 <= i < |ov| => ItemText(ov[i]))
  }

  /** The line the program puts in the editor for a (URL, overrides) pair. */
  function EditorLine(u: string, ov: Dict): string
    requires ScalarValues(ov)
  {
    if ov == [] then u else u + "||" + Join(ItemTexts(ov), ',')
  }

  /** One edited line read back: blank lines and `#` comments are skipped, and
      so is a line whose URL does not pass is_valid_url. */
  function ReparseLine(ln: string): Option<(string, Dict)> {
    var l := Strip(ln);
    if l == "" || StartsWith(l, "#") then None
    else
      var p := ParseSpec(l);
      if IsValidUrl(p.0) then Some(p) else None
  }

  /** The overrides parse_url_spec can produce: a text value under a key free
      of ',' and '=', a text value free of ',', both without surrounding
      whitespace; True under a word that reads back as itself; False only
      under "audio" and "playlist". */
  predicate Editable(e: Entry) {
    match e.val
    case VStr(v) => IsStripped(e.key) && ',' !in e.key && '=' !in e.key && IsStripped(v) && ',' !in v
    case VBool(b) =>
      if b then
        e.key != [] && IsStripped(e.key) && ',' !in e.key && '=' !in e.key
        && (!IsKeyword(LowerAscii(e.key)) || e.key == "audio" || e.key == "playlist")
      else e.key == "audio" || e.key == "playlist"
    case _ => false
  }

  predicate AllEditable(ov: seq<Entry>) {
    forall i :: 0 <= i < |ov| ==> Editable(ov[i])
  }

  /** Every item parse_url_spec reads assigns an editable override. */
  lemma ItemEntryEditable(raw: string)
    requires ',' !in raw && ItemEntry(raw).Some?
    ensures Editable(ItemEntry(raw).value)
  {
    var item := Strip(raw);
    ContainsCharFree(raw, item, ',');
    var kv := SplitFirst(item, "=");
    if kv.1.Some? {
      PairItemEditable(item);
    } else {
      ContainsChar(item, '=');
      BareItemEditable(item);
    }
  }

  /** `k=v` with no ',' gives an editable text override. */
  lemma PairItemEditable(item: string)
    requires ',' !in item && SplitFirst(item, "=").1.Some?
    ensures var kv := SplitFirst(item, "=");
      Editable(Entry(Strip(kv.0), VStr(Strip(kv.1.value))))
  {
    var kv := SplitFirst(item, "=");
    var k, v := kv.0, kv.1.value;
    assert item == k + "=" + v;
    assert Contains(item, k) by { assert OccursAt(item, k, 0); }
    assert Contains(item, v) by { assert OccursAt(item, v, |k| + 1); }
    ContainsTrans(item, k, Strip(k));
    ContainsTrans(item, v, Strip(v));
    ContainsCharFree(item, Strip(k), ',');
    ContainsCharFree(item, Strip(v), ',');
    SplitFirstBeforeFree(item, "=");
    ContainsChar(k, '=');
    ContainsCharFree(k, Strip(k), '=');
  }

  /** A stripped bare word with no ',' gives an editable boolean override. */
  lemma BareItemEditable(item: string)
    requires item != [] && IsStripped(item) && ',' !in item && '=' !in item
    ensures Editable(BareEntry(item))
  {
    var e := BareEntry(item);
    if IsKeyword(LowerAscii(item)) {
      assert e.key == "audio" || e.key == "playlist";
      assert IsStripped(e.key) && ',' !in e.key && '=' !in e.key;
    }
  }

  /** Assigning an editable override keeps all of them editable. */
  lemma SetEditable(d: Dict, e: Entry)
    requires AllEditable(d) && Editable(e)
    ensures AllEditable(Set(d, e.key, e.val))
  {
    var r := Set(d, e.key, e.val);
    forall i | 0 <= i < |r| ensures Editable(r[i]) {
      KeyIndexUnique(r, i);
      if r[i].key != e.key {
        var j := KeyIndex(d, r[i].key).value;
        assert d[j] == r[i];
      }
    }
  }

  lemma {:induction false} ApplyItemsEditable(items: seq<string>)
    requires forall i :: 0 <= i < |items| ==> ',' !in items[i]
    ensures AllEditable(ApplyItems([], items))
    decreases |items|
  {
    if items != [] {
      var p := items[..|items| - 1];
      ApplyItemsEditable(p);
      var x := items[|items| - 1];
      if ItemEntry(x).Some? {
        ItemEntryEditable(x);
        SetEditable(ApplyItems([], p), ItemEntry(x).value);
      }
    }
  }

  /** What parse_url_spec returns: a stripped URL without "||" and editable
      overrides. */
  lemma ParseSpecShape(token: string)
    ensures var (u, ov) := ParseSpec(token);
      IsStripped(u) && !Contains(u, "||") && AllEditable(ov)
  {
    var parts := SplitFirst(token, "||");
    if parts.1.Some? {
      SplitFirstBeforeFree(token, "||");
      var spec := Strip(parts.1.value);
      if spec != "" {
        SplitPiecesFree(spec, ',');
        ApplyItemsEditable(Split(spec, ','));
      }
    }
    if Contains(Strip(parts.0), "||") {
      ContainsTrans(parts.0, Strip(parts.0), "||");
    }
  }

  /** `k=v` reads back as the pair (k, v). */
  lemma TextItemReadsBack(k: string, v: string)
    requires IsStripped(k) && ',' !in k && '=' !in k && IsStripped(v) && ',' !in v
    ensures ItemEntry(k + "=" + v) == Some(Entry(k, VStr(v)))
    ensures ',' !in k + "=" + v && IsStripped(k + "=" + v)
  {
    PairText(k, v);
    PairItem(k + "=" + v, k, v);
    StripOfStripped(k);
    StripOfStripped(v);
  }

  /** `k=v` is stripped, free of ',' and splits at its '='. */
  lemma PairText(k: string, v: string)
    requires IsStripped(k) && ',' !in k && '=' !in k && IsStripped(v) && ',' !in v
    ensures var t := k + "=" + v;
      t != [] && IsStripped(t) && ',' !in t && SplitFirst(t, "=") == (k, Some(v))
  {
    var t := k + "=" + v;
    assert t[|k|] == '=';
    SplitFirstAtChar(k, '=', v);
  }

  /** A stripped item that splits at '=' assigns the stripped halves. */
  lemma PairItem(t: string, k: string, v: string)
    requires t != [] && IsStripped(t) && SplitFirst(t, "=") == (k, Some(v))
    ensures ItemEntry(t) == Some(Entry(Strip(k), VStr(Strip(v))))
  {
    StripOfStripped(t);
  }

  /** A stripped word without '=' reads back as a bare word. */
  lemma BareWordReadsBack(k: string)
    requires k != [] && IsStripped(k) && '=' !in k
    ensures ItemEntry(k) == Some(BareEntry(k))
  {
    StripOfStripped(k);
    ContainsChar(k, '=');
  }

  /** `no-audio` and `no-playlist` read back as False. */
  lemma NoWordReadsBack(k: string)
    requires k == "audio" || k == "playlist"
    ensures ItemEntry("no-" + k) == Some(Entry(k, VBool(false)))
    ensures ',' !in "no-" + k && IsStripped("no-" + k)
  {
    var t := "no-" + k;
    NoWordText(t, k);
    BareWordReadsBack(t);
    NoWordBare(t, k);
  }

  lemma NoWordText(t: string, k: string)
    requires k == "audio" || k == "playlist"
    requires t == "no-" + k
    ensures t != [] && IsStripped(t) && ',' !in t && '=' !in t && LowerAscii(t) == t
  {
    assert t[0] == 'n' && t[|t| - 1] == k[|k| - 1];
    assert forall i :: 3 <= i < |t| ==> t[i] == k[i - 3];
    LowerOfLower(t);
  }

  lemma NoWordBare(t: string, k: string)
    requires k == "audio" || k == "playlist"
    requires t == "no-" + k && LowerAscii(t) == t
    ensures BareEntry(t) == Entry(k, VBool(false))
  {
    if k == "audio" {
      assert |t| == 8 && t == "no-audio";
    } else {
      assert |t| == 11 && t == "no-playlist";
    }
  }

  lemma KeywordText(k: string)
    requires k == "audio" || k == "playlist"
    ensures k != [] && IsStripped(k) && ',' !in k && '=' !in k && LowerAscii(k) == k
  {
    LowerOfLower(k);
  }

  /** `audio` and `playlist` read back as True. */
  lemma KeywordReadsBack(k: string)
    requires k == "audio" || k == "playlist"
    ensures ItemEntry(k) == Some(Entry(k, VBool(true)))
    ensures k != [] && IsStripped(k) && ',' !in k
  {
    KeywordText(k);
    BareWordReadsBack(k);
    if k == "audio" {
      AudioIsFirstKeyword(k);
    } else {
      PlaylistIsThirdKeyword(k);
    }
  }

  lemma AudioIsFirstKeyword(k: string)
    requires k == "audio" && LowerAscii(k) == k
    ensures BareEntry(k) == Entry(k, VBool(true))
  {
  }

  lemma PlaylistIsThirdKeyword(k: string)
    requires k == "playlist" && LowerAscii(k) == k
    ensures BareEntry(k) == Entry(k, VBool(true))
  {
    assert k != "no-audio" by { assert k[0] == 'p'; }
  }

  /** Any other word set to True reads back as itself. */
  lemma PlainWordReadsBack(k: string)
    requires k != [] && IsStripped(k) && '=' !in k && !IsKeyword(LowerAscii(k))
    ensures ItemEntry(k) == Some(Entry(k, VBool(true)))
  {
    BareWordReadsBack(k);
  }

  /** An editable override reads back as itself. */
  lemma ItemTextReadsBack(e: Entry)
    requires Editable(e)
    ensures ItemEntry(ItemText(e)) == Some(e)
    ensures ',' !in ItemText(e) && ItemText(e) != [] && IsStripped(ItemText(e))
  {
    var k := e.key;
    match e.val
    case VStr(v) =>
      TextItemReadsBack(k, v);
    case VBool(b) =>
      if !b {
        NoWordReadsBack(k);
      } else if k == "audio" || k == "playlist" {
        KeywordReadsBack(k);
      } else {
        PlainWordReadsBack(k);
      }
  }

  /** Reading the items of editable overrides back, in order, assigns every
      override again: the result is the same as assigning the entries. */
  lemma {:induction false} ApplyItemTexts(d: Dict, es: seq<Entry>)
    requires AllEditable(es) && ScalarValues(es)
    ensures ApplyItems(d, ItemTexts(es)) == Update(d, es)
    decreases |es|
  {
    if es != [] {
      var p := es[..|es| - 1];
      ApplyItemTexts(d, p);
      assert ItemTexts(es)[..|es| - 1] == ItemTexts(p);
      ItemTextReadsBack(es[|es| - 1]);
    }
  }

  lemma EditableScalar(ov: seq<Entry>)
    requires AllEditable(ov)
    ensures ScalarValues(ov)
  {
  }

  /** The overrides part of an editor line parses back to the overrides. */
  lemma OverridesReadBack(ov: Dict)
    requires ov != [] && AllEditable(ov)
    ensures ScalarValues(ov)
    ensures var j := Join(ItemTexts(ov), ',');
      j != [] && IsStripped(j) && Strip(j) == j && ApplyItems([], Split(j, ',')) == ov
  {
    var texts := ItemTexts(ov);
    forall i | 0 <= i < |texts| ensures ',' !in texts[i] && texts[i] != [] && IsStripped(texts[i]) {
      ItemTextReadsBack(ov[i]);
    }
    var j := Join(texts, ',');
    JoinStripped(texts, ',');
    StripOfStripped(j);
    SplitJoin(texts, ',');
    ApplyItemTexts([], ov);
    UpdateEmpty(ov);
  }

  /** A valid URL is stripped and non-empty and cannot start a comment. */
  lemma ValidUrlStart(u: string)
    requires IsValidUrl(u)
    ensures u != [] && u[0] == 'h' && !StartsWith(u, "#")
  {
    assert u[0] == u[..7][0];
  }

  /** An edited line that splits at its first "||" into a valid URL and an
      overrides text reads back as that URL and what the text assigns. */
  lemma ReparseSplitLine(line: string, pre: string, j: string, u: string, ov: Dict)
    requires IsStripped(line) && line != [] && line[0] == 'h'
    requires SplitFirst(line, "||") == (pre, Some(j))
    requires Strip(pre) == u && IsValidUrl(u) && j != [] && IsStripped(j)
    requires ApplyItems([], Split(j, ',')) == ov
    ensures ReparseLine(line) == Some((u, ov))
  {
    StripOfStripped(line);
    StripOfStripped(j);
    assert !StartsWith(line, "#") by { assert line[..1][0] == 'h'; }
  }

  /** Where the editor line splits. */
  lemma EditorLineSplit(u: string, j: string)
    requires u != [] && IsStripped(u) && u[0] == 'h' && !Contains(u, "||") && u[|u| - 1] != '|'
    requires j != [] && IsStripped(j)
    ensures var line := u + "||" + j;
      IsStripped(line) && line != [] && line[0] == 'h' && SplitFirst(line, "||") == (u, Some(j))
  {
    var line := u + "||" + j;
    assert line[0] == 'h' && line[|line| - 1] == j[|j| - 1];
    SplitFirstAt(u, "||", j);
  }

  /** Where the spaced editor line splits. */
  lemma SpacedLineSplit(u: string, j: string)
    requires u != [] && IsStripped(u) && u[0] == 'h' && !Contains(u, "||")
    requires j != [] && IsStripped(j)
    ensures var line := u + " ||" + j;
      IsStripped(line) && line != [] && line[0] == 'h' && SplitFirst(line, "||") == (u + " ", Some(j))
      && Strip(u + " ") == u
  {
    var line := u + " ||" + j;
    assert line[0] == 'h' && line[|line| - 1] == j[|j| - 1];
    NoDoubleBarAfterSpace(u);
    assert line == (u + " ") + "||" + j;
    SplitFirstAt(u + " ", "||", j);
    StripTrailingSpace(u, " ");
  }

  /** A valid URL alone on a line reads back with no overrides. */
  lemma ReparseBareUrl(u: string)
    requires IsValidUrl(u) && IsStripped(u) && !Contains(u, "||")
    ensures ReparseLine(u) == Some((u, []))
  {
    ValidUrlStart(u);
    StripOfStripped(u);
    NoSeparatorNoOverrides(u);
  }

  /** What the round trip needs of a (URL, overrides) pair. */
  predicate Reparsable(u: string, ov: Dict) {
    IsValidUrl(u) && IsStripped(u) && !Contains(u, "||") && AllEditable(ov)
  }

  /** As written, the editor line of a pair reads back as the pair when its
      URL does not end in '|'. */
  lemma EditorLineReadsBack(u: string, ov: Dict)
    requires Reparsable(u, ov) && !EndsWith(u, "|")
    ensures ScalarValues(ov) && ReparseLine(EditorLine(u, ov)) == Some((u, ov))
  {
    ValidUrlStart(u);
    if ov == [] {
      ReparseBareUrl(u);
    } else {
      assert u[|u| - 1] != '|' by { assert u[|u| - 1..] != "|"; }
      OverridesLineReadsBack(u, ov);
    }
  }

  lemma OverridesLineReadsBack(u: string, ov: Dict)
    requires Reparsable(u, ov) && ov != [] && u[|u| - 1] != '|'
    ensures ScalarValues(ov) && ReparseLine(u + "||" + Join(ItemTexts(ov), ',')) == Some((u, ov))
  {
    ValidUrlStart(u);
    OverridesReadBack(ov);
    var j := Join(ItemTexts(ov), ',');
    EditorLineSplit(u, j);
    StripOfStripped(u);
    ReparseSplitLine(u + "||" + j, u, j, u, ov);
  }

  /** parse_url_spec's result with a valid URL is reparsable. */
  lemma ParsedReparsable(token: string)
    requires IsValidUrl(ParseSpec(token).0)
    ensures Reparsable(ParseSpec(token).0, ParseSpec(token).1)
  {
    ParseSpecShape(token);
  }

  /** As written, the editor line gives back what parse_url_spec produced as
      long as the URL does not end in '|'. */
  lemma EditorRoundTripAsWritten(token: string)
    requires IsValidUrl(ParseSpec(token).0) && !EndsWith(ParseSpec(token).0, "|")
    ensures var (u, ov) := ParseSpec(token);
      ScalarValues(ov) && ReparseLine(EditorLine(u, ov)) == Some((u, ov))
  {
    ParsedReparsable(token);
    EditorLineReadsBack(ParseSpec(token).0, ParseSpec(token).1);
  }

  /** The word "|audio" is no keyword: it reads back as itself set to True. */
  lemma BarAudioReadsBack(k: string)
    requires k == "|audio"
    ensures k != [] && IsStripped(k) && ',' !in k && ItemEntry(k) == Some(Entry(k, VBool(true)))
  {
    assert LowerAscii(k)[0] == '|';
    assert ',' !in k && '=' !in k;
    PlainWordReadsBack(k);
  }

  /** An overrides text of one item free of ',' assigns what that item does. */
  lemma SingleItemOverrides(k: string, e: Entry)
    requires k != [] && IsStripped(k) && ',' !in k && ItemEntry(k) == Some(e)
    ensures Strip(k) == k && ApplyItems([], Split(k, ',')) == [e]
  {
    StripOfStripped(k);
    SplitNoSep(k, ',');
    SingleItem(k, e);
  }

  /** The overrides of a single item that assigns e. */
  lemma SingleItem(x: string, e: Entry)
    requires ItemEntry(x) == Some(e)
    ensures ApplyItems([], [x]) == [e]
  {
    assert [x][..0] == [];
    SetFresh([], e.key, e.val);
  }

  lemma NoBarPairs(u: string)
    requires '|' !in u
    ensures !Contains(u, "||") && !Contains(u + "| ", "||")
  {
    var pre := u + "| ";
    forall k | 0 <= k && k + 2 <= |pre| ensures pre[k] != '|' || pre[k + 1] != '|' {
      if k + 1 < |u| {
        assert pre[k + 1] == u[k + 1];
      } else if k + 1 == |u| {
        assert pre[k] == u[k];
      } else {
        assert pre[k + 1] == ' ';
      }
    }
    forall k | 0 <= k <= |pre| ensures !OccursAt(pre, "||", k) {
      if k + 2 <= |pre| {
        assert pre[k..k + 2][0] == pre[k] && pre[k..k + 2][1] == pre[k + 1];
      }
    }
    forall k | 0 <= k <= |u| ensures !OccursAt(u, "||", k) {
      if k + 2 <= |u| {
        assert u[k..k + 2][0] == u[k];
      }
    }
  }

  /** The token `u| ||spec` splits after the blank, and its URL part strips
      to `u|`. */
  lemma TrailingBarSplit(u: string, spec: string)
    requires IsValidUrl(u) && IsStripped(u) && '|' !in u
    ensures SplitFirst(u + "| ||" + spec, "||") == (u + "| ", Some(spec))
    ensures Strip(u + "| ") == u + "|"
  {
    ValidUrlStart(u);
    NoBarPairs(u);
    var pre := u + "| ";
    assert u + "| ||" + spec == pre + "||" + spec;
    SplitFirstAt(pre, "||", spec);
    assert pre == (u + "|") + " ";
    StripTrailingSpace(u + "|", " ");
  }

  /** parse_url_spec keeps the '|' before " ||" in the URL. */
  lemma TrailingBarParse(u: string, spec: string)
    requires IsValidUrl(u) && IsStripped(u) && '|' !in u && spec == "audio"
    ensures ParseSpec(u + "| ||" + spec) == (u + "|", [Entry(spec, VBool(true))])
  {
    TrailingBarSplit(u, spec);
    KeywordReadsBack(spec);
    SingleItemOverrides(spec, Entry(spec, VBool(true)));
  }

  /** The editor line of (u|, {audio: True}) is `u|||audio`, which splits
      after u. */
  lemma TrailingBarReparse(u: string, spec: string)
    requires IsValidUrl(u) && IsStripped(u) && '|' !in u && spec == "audio"
    ensures ReparseLine(EditorLine(u + "|", [Entry(spec, VBool(true))]))
         == Some((u, [Entry("|" + spec, VBool(true))]))
  {
    ValidUrlStart(u);
    NoBarPairs(u);
    var ov := [Entry(spec, VBool(true))];
    var bar := "|" + spec;
    assert ItemTexts(ov) == [spec];
    assert EditorLine(u + "|", ov) == u + "||" + bar;
    BarAudioReadsBack(bar);
    SingleItemOverrides(bar, Entry(bar, VBool(true)));
    EditorLineSplit(u, bar);
    StripOfStripped(u);
    ReparseSplitLine(u + "||" + bar, u, bar, u, [Entry(bar, VBool(true))]);
  }

  /** For any valid URL u without '|', the token `u| ||audio` parses to
      (u|, {audio: True}), but its editor line `u|||audio` reads back as
      (u, {"|audio": True}): the URL loses its last character and the
      override changes its name. "http://x| ||audio" is such a token. */
  lemma EditorLineLosesTrailingBar(u: string, spec: string)
    requires IsValidUrl(u) && IsStripped(u) && '|' !in u && spec == "audio"
    ensures ParseSpec(u + "| ||" + spec) == (u + "|", [Entry(spec, VBool(true))])
    ensures ReparseLine(EditorLine(u + "|", [Entry(spec, VBool(true))]))
         == Some((u, [Entry("|" + spec, VBool(true))]))
  {
    TrailingBarParse(u, spec);
    TrailingBarReparse(u, spec);
  }

  /** The editor line with a space before "||": the form that reads back for
      every URL parse_url_spec can produce. */
  function EditorLineSpaced(u: string, ov: Dict): string
    requires ScalarValues(ov)
  {
    if ov == [] then u else u + " ||" + Join(ItemTexts(ov), ',')
  }

  /** With the space, the editor line of any reparsable pair reads back as
      the pair, whatever its URL ends in. */
  lemma EditorLineSpacedReadsBack(u: string, ov: Dict)
    requires Reparsable(u, ov)
    ensures ScalarValues(ov) && ReparseLine(EditorLineSpaced(u, ov)) == Some((u, ov))
  {
    ValidUrlStart(u);
    if ov == [] {
      ReparseBareUrl(u);
    } else {
      OverridesReadBack(ov);
      var j := Join(ItemTexts(ov), ',');
      SpacedLineSplit(u, j);
      ReparseSplitLine(u + " ||" + j, u + " ", j, u, ov);
    }
  }

  /** With the space, every (URL, overrides) pair parse_url_spec produces
      with a valid URL survives the editor line and its re-parse. */
  lemma EditorRoundTrip(token: string)
    requires IsValidUrl(ParseSpec(token).0)
    ensures var (u, ov) := ParseSpec(token);
      ScalarValues(ov) && ReparseLine(EditorLineSpaced(u, ov)) == Some((u, ov))
  {
    ParsedReparsable(token);
    EditorLineSpacedReadsBack(ParseSpec(token).0, ParseSpec(token).1);
  }

  // -------------------------------------------------------------------
  // Input tokens to (URL, overrides) pairs (draxon.py:424-436)

  /** One input line: parse it, and when its URL part is not a valid URL take
      the first URL found anywhere in the line instead. */
  function ResolveToken(raw: string): Option<(string, Dict)> {
    var token := Strip(raw);
    if token == "" then None
    else
      var (url, ov) := ParseSpec(token);
      if IsValidUrl(url) then Some((url, ov))
      else
        var found := UrlsIn(token);
        if found != [] then Some((found[0], ov)) else None
  }

  /** The results f gives, in order, leaving out the lines it gives none for. */
  function Collect<T>(lines: seq<string>, f: string -> Option<T>): seq<T>
    decreases |lines|
  {
    if lines == [] then []
    else
      var r := f(lines[|lines| - 1]);
      Collect(lines[..|lines| - 1], f) + (if r.Some? then [r.value] else [])
  }

  function ResolveAll(tokens: seq<string>): seq<(string, Dict)> {
    Collect(tokens, ResolveToken)
  }

  /** The token loop: lines in order, invalid ones skipped. */
  method ResolveTokens(tokens: seq<string>) returns (pairs: seq<(string, Dict)>)
    ensures pairs == ResolveAll(tokens)
  {
    pairs := [];
    var i := 0;
    while i < |tokens|
      invariant 0 <= i <= |tokens|
      invariant pairs == Collect(tokens[..i], ResolveToken)
    {
      var r := ResolveOne(tokens[i]);
      CollectStep(tokens, ResolveToken, i, r);
      if r.Some? {
        pairs := pairs + [r.value];
      }
      i := i + 1;
    }
    assert tokens[..|tokens|] == tokens;
  }

  /** One turn of the token loop: a blank line gives nothing; otherwise the
      parsed URL when valid, else the first URL found in the line, else
      nothing. */
  method ResolveOne(raw: string) returns (r: Option<(string, Dict)>)
    ensures r == ResolveToken(raw)
  {
    var token := Strip(raw);
    ResolveTokenOf(raw, token);
    if token == "" {
      return None;
    }
    var url, ov := ParseUrlSpec(token);
    if IsValidUrl(url) {
      return Some((url, ov));
    }
    var found := ParseUrlsFromText(token);
    assert found == UrlsIn(token);
    if found != [] {
      return Some((found[0], ov));
    }
    return None;
  }

  lemma ResolveTokenOf(raw: string, token: string)
    requires token == Strip(raw)
    ensures ResolveToken(raw) == if token == "" then None
      else if IsValidUrl(ParseSpec(token).0) then Some(ParseSpec(token))
      else if UrlsIn(token) != [] then Some((UrlsIn(token)[0], ParseSpec(token).1))
      else None
  {
  }

  lemma CollectStep<T>(lines: seq<string>, f: string -> Option<T>, i: nat, r: Option<T>)
    requires i < |lines| && r == f(lines[i])
    ensures Collect(lines[..i + 1], f) == Collect(lines[..i], f) + (if r.Some? then [r.value] else [])
  {
    assert lines[..i + 1][..i] == lines[..i];
  }

  /** What holds of every result f gives holds of every result collected. */
  lemma {:induction false} CollectAll<T>(lines: seq<string>, f: string -> Option<T>, p: T -> bool)
    requires forall line :: f(line).Some? ==> p(f(line).value)
    ensures forall x :: x in Collect(lines, f) ==> p(x)
    decreases |lines|
  {
    if lines != [] {
      CollectAll(lines[..|lines| - 1], f, p);
    }
  }

  /** Every resolved URL either passes is_valid_url or is a URL found in the
      text, with its scheme in any letter case. */
  lemma ResolvedUrls(tokens: seq<string>)
    ensures forall p :: p in ResolveAll(tokens) ==> IsValidUrl(p.0) || WellFormedUrl(p.0)
  {
    forall raw ensures ResolveToken(raw).Some? ==> UrlShapeOk(ResolveToken(raw).value) {
      ResolvedTokenUrl(raw);
    }
    CollectAll(tokens, ResolveToken, UrlShapeOk);
  }

  predicate UrlShapeOk(p: (string, Dict)) {
    IsValidUrl(p.0) || WellFormedUrl(p.0)
  }

  /** The URL of one resolved token passes is_valid_url or is a URL found
      in it. */
  lemma ResolvedTokenUrl(raw: string)
    ensures var r := ResolveToken(raw); r.Some? ==> IsValidUrl(r.value.0) || WellFormedUrl(r.value.0)
  {
    var token := Strip(raw);
    if token != "" && !IsValidUrl(ParseSpec(token).0) && UrlsIn(token) != [] {
      UrlsInShape(token);
      assert UrlsIn(token)[0] in UrlsIn(token);
    }
  }
}
