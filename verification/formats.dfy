/** The format catalog of the terminal UI (draxon/core/formats.py): the
    engine's format descriptors become a list of video choices and a list of
    audio choices. Descriptors are ranked by (height, bit rate) in a stable
    descending sort, classified by their codecs, deduplicated by a label,
    and each list gets a fallback entry when nothing qualified. */
module Formats {
  import opened Common
  import opened Dedup
  import opened Ranking

  /** FormatInfo: what the UI lists for one choice. */
  datatype FormatInfo = FormatInfo(id: string, text: string, filesize: Option<int>)

  /** One descriptor of the engine's "formats" list; None stands for a key
      the descriptor does not have. */
  datatype FormatDesc = FormatDesc(
    formatId: Option<string>,
    filesize: Option<int>,
    filesizeApprox: Option<int>,
    ext: Option<string>,
    vcodec: Option<string>,
    acodec: Option<string>,
    height: Option<int>,
    tbr: Option<real>,
    abr: Option<real>)

  /** The engine's info dict: its "formats" list (empty when absent) and
      its "audio_ext" entry. */
  datatype InfoDict = InfoDict(formats: seq<FormatDesc>, audioExt: Option<string>)

  // -------------------------------------------------------------------
  // _format_filesize

  function Pow1024(k: nat): (r: nat)
    ensures r >= 1
  {
    if k == 0 then 1 else 1024 * Pow1024(k - 1)
  }

  /** n / d to the nearest integer, a tie going to the even one. */
  function RoundHalfEven(n: nat, d: nat): (c: nat)
    requires d >= 1
    ensures -(d as int) <= 2 * (n - c * d) <= d
    ensures 2 * (n - c * d) == d ==> c % 2 == 0
    ensures 2 * (n - c * d) == -(d as int) ==> c % 2 == 0
  {
    var q, rem := n / d, n % d;
    EuclidStep(n, d, q, rem);
    if 2 * rem > d || (2 * rem == d && q % 2 == 1) then q + 1 else q
  }

  /** n is q whole d's and rem: what is left after q and after q + 1. */
  lemma EuclidStep(n: nat, d: nat, q: nat, rem: nat)
    requires d >= 1 && q == n / d && rem == n % d
    ensures n - q * d == rem && n - (q + 1) * d == rem - d && 0 <= rem < d
  {
    assert (q + 1) * d == q * d + d;
  }

  /** b / 1024^k in hundredths as '.2f' prints it: the exact quotient
      rounded to the nearest hundredth, a tie going to the even one. */
  function Hundredths(b: nat, k: nat): nat {
    RoundHalfEven(100 * b, Pow1024(k))
  }

  /** A number of hundredths as "W.FF". */
  function Fixed2(c: nat): string {
    NatToString(c / 100) + "." + PadNat(c % 100, 2)
  }

  /** The power of 1024 a size of at least 1024 bytes is shown in. */
  function Scale(b: int): (k: nat)
    ensures 1 <= k <= 3
  {
    if b < 1024 * 1024 then 1 else if b < 1024 * 1024 * 1024 then 2 else 3
  }

  function UnitName(k: nat): string {
    if k == 1 then "KiB" else if k == 2 then "MiB" else "GiB"
  }

  /** _format_filesize: "N/A", a byte count below 1024 as "{b} B", larger
      ones in KiB, MiB or GiB with two decimals. */
  function FormatFilesize(b: Option<int>): (r: string)
    ensures |r| >= 3
    ensures b.None? ==> r == "N/A"
    ensures b.Some? && b.value < 1024 ==> r == IntToString(b.value) + " B"
    ensures b.Some? && b.value >= 1024 ==> EndsWith(r, " " + UnitName(Scale(b.value)))
  {
    match b
    case None => "N/A"
    case Some(n) =>
      if n < 1024 then IntToString(n) + " B"
      else
        var k := Scale(n);
        assert Fixed2(Hundredths(n, k)) + " " + UnitName(k) == Fixed2(Hundredths(n, k)) + (" " + UnitName(k));
        Fixed2(Hundredths(n, k)) + (" " + UnitName(k))
  }

  /** The unit follows the size: KiB below 1024^2 bytes, MiB below 1024^3,
      GiB above. */
  lemma ScaleRange(b: int)
    requires b >= 1024
    ensures Pow1024(Scale(b)) <= b
    ensures Scale(b) < 3 ==> b < Pow1024(Scale(b) + 1)
  {
    assert Pow1024(1) == 1024;
    assert Pow1024(2) == 1024 * 1024;
    assert Pow1024(3) == 1024 * 1024 * 1024;
  }

  /** "W.FF" reads back as the number of hundredths it was made from. */
  lemma Fixed2ReadsBack(c: nat)
    ensures var t := Fixed2(c);
      && |t| >= 4 && t[|t| - 3] == '.'
      && (forall i :: 0 <= i < |t| - 3 ==> IsDigit(t[i]))
      && IsDigit(t[|t| - 2]) && IsDigit(t[|t| - 1])
      && DigitsValue(t[..|t| - 3]) * 100 + DigitsValue(t[|t| - 2..]) == c
  {
    var w, f := NatToString(c / 100), PadNat(c % 100, 2);
    assert Pow10(2) == 100;
    PadNatExact(c % 100, 2);
    PadNatValue(c % 100, 2);
    NatToStringValue(c / 100);
    var t := w + "." + f;
    assert t[..|t| - 3] == w && t[|t| - 2..] == f;
  }

  /** A size of at least 1024 bytes reads back: the text before the unit is
      "W.FF", and W.FF is b / 1024^k to the nearest hundredth (ties to even),
      k being the unit's power. */
  lemma FilesizeReadsBack(b: int)
    requires b >= 1024
    ensures var r, k := FormatFilesize(Some(b)), Scale(b);
      var t := r[..|r| - 4];
      && r == t + " " + UnitName(k)
      && |t| >= 4 && t[|t| - 3] == '.'
      && (forall i :: 0 <= i < |t| - 3 ==> IsDigit(t[i]))
      && IsDigit(t[|t| - 2]) && IsDigit(t[|t| - 1])
      && var c := DigitsValue(t[..|t| - 3]) * 100 + DigitsValue(t[|t| - 2..]);
      -(Pow1024(k) as int) <= 2 * (100 * b - c * Pow1024(k)) <= Pow1024(k)
  {
    var k := Scale(b);
    var c := Hundredths(b, k);
    Fixed2ReadsBack(c);
    var r := FormatFilesize(Some(b));
    assert r == Fixed2(c) + (" " + UnitName(k));
    assert r[..|r| - 4] == Fixed2(c);
  }

  /** 1536 bytes are "1.50 KiB". */
  lemma FilesizeExample(b: int)
    requires b == 1536
    ensures FormatFilesize(Some(b)) == "1.50 KiB"
  {
    assert Pow1024(1) == 1024;
    assert 153600 / 1024 == 150 && 153600 % 1024 == 0;
    assert Hundredths(b, 1) == 150;
    assert NatToString(1) == "1" && PadNat(50, 2) == "50";
  }

  /** 1048575 bytes, one short of a MiB, round up to "1024.00 KiB". */
  lemma FilesizeRoundsUp(b: int)
    requires b == 1048575
    ensures FormatFilesize(Some(b)) == "1024.00 KiB"
  {
    assert Pow1024(1) == 1024;
    assert 104857500 / 1024 == 102399 && 104857500 % 1024 == 924;
    assert Hundredths(b, 1) == 102400;
    assert NatToString(1024) == "1024" && PadNat(0, 2) == "00";
    assert 102400 / 100 == 1024 && 102400 % 100 == 0;
    assert Fixed2(102400) == "1024.00";
    assert Scale(b) == 1 && UnitName(1) == "KiB";
    assert FormatFilesize(Some(b)) == "1024.00" + " " + "KiB";
  }

  // -------------------------------------------------------------------
  // Classification and labels

  /** f.get(codec) != "none": an absent codec counts as present. */
  predicate HasCodec(c: Option<string>) {
    c != Some("none")
  }

  datatype Kind = Muxed | VideoOnly | AudioOnly | NoStream

  /** The branch of the loop a descriptor takes. */
  function KindOf(f: FormatDesc): (r: Kind)
    ensures r == Muxed <==> HasCodec(f.vcodec) && HasCodec(f.acodec)
    ensures r == VideoOnly <==> HasCodec(f.vcodec) && !HasCodec(f.acodec)
    ensures r == AudioOnly <==> !HasCodec(f.vcodec) && HasCodec(f.acodec)
    ensures r == NoStream <==> !HasCodec(f.vcodec) && !HasCodec(f.acodec)
  {
    if HasCodec(f.vcodec) && HasCodec(f.acodec) then Muxed
    else if HasCodec(f.vcodec) then VideoOnly
    else if HasCodec(f.acodec) then AudioOnly
    else NoStream
  }

  predicate IdTruthy(f: FormatDesc) {
    f.formatId.Some? && f.formatId.value != ""
  }

  predicate HeightTruthy(f: FormatDesc) {
    f.height.Some? && f.height.value != 0
  }

  predicate AbrTruthy(f: FormatDesc) {
    f.abr.Some? && f.abr.value != 0.0
  }

  /** str(ext): an absent extension prints as "None". */
  function ExtText(f: FormatDesc): string {
    match f.ext
    case None => "None"
    case Some(e) => e
  }

  /** int(x): truncation toward zero. */
  function TruncReal(x: real): (r: int)
    ensures 0.0 <= x ==> r as real <= x < r as real + 1.0
    ensures x < 0.0 ==> r as real - 1.0 < x <= r as real
  {
    if x >= 0.0 then x.Floor else -((-x).Floor)
  }

  /** The label video choices are deduplicated by. */
  function VideoLabel(f: FormatDesc): string {
    IntToString(f.height.GetOr(0)) + "p (" + ExtText(f)
      + (if KindOf(f) == VideoOnly then ", video only)" else ")")
  }

  /** The label audio choices are deduplicated by. */
  function AudioLabel(f: FormatDesc): string {
    IntToString(TruncReal(f.abr.GetOr(0.0))) + "k (" + ExtText(f) + ")"
  }

  /** A descriptor that becomes a video choice unless its label was seen. */
  predicate IsVideoChoice(f: FormatDesc) {
    IdTruthy(f) && (KindOf(f) == Muxed || KindOf(f) == VideoOnly) && HeightTruthy(f)
  }

  /** A descriptor that becomes an audio choice unless its label was seen. */
  predicate IsAudioChoice(f: FormatDesc) {
    IdTruthy(f) && KindOf(f) == AudioOnly && AbrTruthy(f)
  }

  /** f.get("filesize") or f.get("filesize_approx"). */
  function SizeOf(f: FormatDesc): (r: Option<int>)
    ensures f.filesize.Some? && f.filesize.value != 0 ==> r == f.filesize
    ensures !(f.filesize.Some? && f.filesize.value != 0) ==> r == f.filesizeApprox
  {
    if f.filesize.Some? && f.filesize.value != 0 then f.filesize else f.filesizeApprox
  }

  /** The choice made from a descriptor under its dedup label. */
  function ToInfo(f: FormatDesc, name: string): FormatInfo {
    FormatInfo(f.formatId.GetOr(""), name + " - " + FormatFilesize(SizeOf(f)), SizeOf(f))
  }

  function VideoInfo(f: FormatDesc): FormatInfo {
    ToInfo(f, VideoLabel(f))
  }

  function AudioInfo(f: FormatDesc): FormatInfo {
    ToInfo(f, AudioLabel(f))
  }

  function MapInfo(s: seq<FormatDesc>, info: FormatDesc -> FormatInfo): (r: seq<FormatInfo>)
    ensures |r| == |s|
    ensures forall i :: 0 <= i < |s| ==> r[i] == info(s[i])
    decreases |s|
  {
    if s == [] then [] else MapInfo(s[..|s| - 1], info) + [info(s[|s| - 1])]
  }

  /** The sort key (height or 0, tbr or abr or 0). */
  function RankOf(f: FormatDesc): Rank {
    Rank(f.height.GetOr(0), if f.tbr.Some? && f.tbr.value != 0.0 then f.tbr.value else f.abr.GetOr(0.0))
  }

  // -------------------------------------------------------------------
  // parse_formats

  const BestVideo := FormatInfo("bestvideo/best", "Best Video", None)
  const BestAudio := FormatInfo("bestaudio/best", "Best Audio", None)

  /** The kept descriptors of a list, in the order of the ranked input. */
  function Kept(fs: seq<FormatDesc>, p: FormatDesc -> bool, labelOf: FormatDesc -> string): seq<FormatDesc> {
    FirstByKey(Select(SortDesc(fs, RankOf), p), labelOf)
  }

  function VideoKept(formats: seq<FormatDesc>): seq<FormatDesc> {
    Kept(formats, IsVideoChoice, VideoLabel)
  }

  function AudioKept(formats: seq<FormatDesc>): seq<FormatDesc> {
    Kept(formats, IsAudioChoice, AudioLabel)
  }

  /** The video list parse_formats returns. */
  function VideoList(info: InfoDict): seq<FormatInfo> {
    var kept := VideoKept(info.formats);
    if kept == [] then [BestVideo] else MapInfo(kept, VideoInfo)
  }

  /** The audio list parse_formats returns. */
  function AudioList(info: InfoDict): seq<FormatInfo> {
    var kept := AudioKept(info.formats);
    if kept != [] then MapInfo(kept, AudioInfo)
    else if info.audioExt != Some("none") then [BestAudio]
    else []
  }

  /** One more descriptor in the loop: the kept list grows by it exactly
      when it qualifies and its label is new. */
  lemma KeptStep(s: seq<FormatDesc>, i: nat, p: FormatDesc -> bool, labelOf: FormatDesc -> string)
    requires i < |s|
    ensures var before := FirstByKey(Select(s[..i], p), labelOf);
      FirstByKey(Select(s[..i + 1], p), labelOf)
      == if p(s[i]) && labelOf(s[i]) !in KeySet(before, labelOf) then before + [s[i]] else before
  {
    assert s[..i + 1] == s[..i] + [s[i]];
    SelectSnoc(s[..i], s[i], p);
    if !p(s[i]) {
      assert Select(s[..i], p) + [] == Select(s[..i], p);
    } else {
      FirstByKeySnoc(Select(s[..i], p), s[i], labelOf);
    }
  }

  /** The seen set and the output list after one more kept descriptor. */
  lemma KeptGrows(kept: seq<FormatDesc>, f: FormatDesc, labelOf: FormatDesc -> string, info: FormatDesc -> FormatInfo)
    ensures KeySet(kept + [f], labelOf) == KeySet(kept, labelOf) + {labelOf(f)}
    ensures MapInfo(kept + [f], info) == MapInfo(kept, info) + [info(f)]
  {
    KeySetAppend(kept, f, labelOf);
    assert (kept + [f])[..|kept|] == kept;
  }

  /** The seen set and the output list after a descriptor: it is added
      when it qualifies and its label is new. */
  function Visited(out: seq<FormatInfo>, seen: set<string>, f: FormatDesc,
                   p: FormatDesc -> bool, labelOf: FormatDesc -> string, info: FormatDesc -> FormatInfo)
    : (seq<FormatInfo>, set<string>)
  {
    if p(f) && labelOf(f) !in seen then (out + [info(f)], seen + {labelOf(f)}) else (out, seen)
  }

  /** One turn of parse_formats's loop: the branch f's codecs select, its
      label, and the append behind the seen set. */
  method VisitFormat(f: FormatDesc, video: seq<FormatInfo>, seenVideo: set<string>,
                     audio: seq<FormatInfo>, seenAudio: set<string>)
    returns (video': seq<FormatInfo>, seenVideo': set<string>, audio': seq<FormatInfo>, seenAudio': set<string>)
    ensures (video', seenVideo') == Visited(video, seenVideo, f, IsVideoChoice, VideoLabel, VideoInfo)
    ensures (audio', seenAudio') == Visited(audio, seenAudio, f, IsAudioChoice, AudioLabel, AudioInfo)
  {
    video', seenVideo', audio', seenAudio' := video, seenVideo, audio, seenAudio;
    if f.formatId.None? || f.formatId.value == "" {
      return;
    }
    var filesize := SizeOf(f);
    if f.vcodec != Some("none") && f.acodec != Some("none") {
      if f.height.Some? && f.height.value != 0 {
        var name := IntToString(f.height.value) + "p (" + ExtText(f) + ")";
        if name !in seenVideo {
          video' := video + [FormatInfo(f.formatId.value, name + " - " + FormatFilesize(filesize), filesize)];
          seenVideo' := seenVideo + {name};
        }
      }
    } else if f.vcodec != Some("none") {
      if f.height.Some? && f.height.value != 0 {
        var name := IntToString(f.height.value) + "p (" + ExtText(f) + ", video only)";
        if name !in seenVideo {
          video' := video + [FormatInfo(f.formatId.value, name + " - " + FormatFilesize(filesize), filesize)];
          seenVideo' := seenVideo + {name};
        }
      }
    } else if f.acodec != Some("none") {
      if f.abr.Some? && f.abr.value != 0.0 {
        var name := IntToString(TruncReal(f.abr.value)) + "k (" + ExtText(f) + ")";
        if name !in seenAudio {
          audio' := audio + [FormatInfo(f.formatId.value, name + " - " + FormatFilesize(filesize), filesize)];
          seenAudio' := seenAudio + {name};
        }
      }
    }
  }

  /** The loop's invariant is kept by one more descriptor. */
  lemma VisitedStep(s: seq<FormatDesc>, i: nat, p: FormatDesc -> bool, labelOf: FormatDesc -> string,
                    info: FormatDesc -> FormatInfo)
    requires i < |s|
    ensures var before := FirstByKey(Select(s[..i], p), labelOf);
      var after := FirstByKey(Select(s[..i + 1], p), labelOf);
      Visited(MapInfo(before, info), KeySet(before, labelOf), s[i], p, labelOf, info)
      == (MapInfo(after, info), KeySet(after, labelOf))
  {
    KeptStep(s, i, p, labelOf);
    KeptGrows(FirstByKey(Select(s[..i], p), labelOf), s[i], labelOf, info);
  }

  /** parse_formats: the loop over the ranked descriptors with a seen set
      per list, then the fallbacks. */
  method ParseFormats(info: InfoDict) returns (video: seq<FormatInfo>, audio: seq<FormatInfo>)
    ensures video == VideoList(info)
    ensures audio == AudioList(info)
  {
    var sorted := SortDesc(info.formats, RankOf);
    video, audio := [], [];
    var seenVideo: set<string>, seenAudio: set<string> := {}, {};
    for i := 0 to |sorted|
      invariant video == MapInfo(FirstByKey(Select(sorted[..i], IsVideoChoice), VideoLabel), VideoInfo)
      invariant seenVideo == KeySet(FirstByKey(Select(sorted[..i], IsVideoChoice), VideoLabel), VideoLabel)
      invariant audio == MapInfo(FirstByKey(Select(sorted[..i], IsAudioChoice), AudioLabel), AudioInfo)
      invariant seenAudio == KeySet(FirstByKey(Select(sorted[..i], IsAudioChoice), AudioLabel), AudioLabel)
    {
      VisitedStep(sorted, i, IsVideoChoice, VideoLabel, VideoInfo);
      VisitedStep(sorted, i, IsAudioChoice, AudioLabel, AudioInfo);
      video, seenVideo, audio, seenAudio := VisitFormat(sorted[i], video, seenVideo, audio, seenAudio);
    }
    assert sorted[..|sorted|] == sorted;
    if audio == [] {
      if info.audioExt != Some("none") {
        audio := audio + [BestAudio];
      }
    }
    if video == [] {
      video := video + [BestVideo];
    }
  }

  // -------------------------------------------------------------------
  // What parse_formats promises

  /** Keeping the elements that pass a test keeps a descending order. */
  lemma {:induction false} SelectSorted<T>(s: seq<T>, p: T -> bool, rank: T -> Rank)
    requires SortedDesc(s, rank)
    ensures SortedDesc(Select(s, p), rank)
    decreases |s|
  {
    if s != [] {
      var q, x := s[..|s| - 1], s[|s| - 1];
      assert SortedDesc(q, rank) by {
        forall i, j | 0 <= i < j < |q| ensures !Below(rank(q[i]), rank(q[j])) {
          assert q[i] == s[i] && q[j] == s[j];
        }
      }
      SelectSorted(q, p, rank);
      SelectKeeps(q, p, y => !Below(rank(y), rank(x)));
    }
  }


  /** Nothing is kept exactly when no descriptor qualifies. */
  lemma KeptEmpty(fs: seq<FormatDesc>, p: FormatDesc -> bool, labelOf: FormatDesc -> string)
    ensures Kept(fs, p, labelOf) == [] <==> forall i :: 0 <= i < |fs| ==> !p(fs[i])
  {
    var sorted := SortDesc(fs, RankOf);
    RankedPerm(fs);
    FirstByKeyEmpty(Select(sorted, p), labelOf);
    SelectEmpty(sorted, p);
    if i :| 0 <= i < |fs| && p(fs[i]) {
      assert fs[i] in multiset(sorted);
      var j :| 0 <= j < |sorted| && sorted[j] == fs[i];
    }
    if j :| 0 <= j < |sorted| && p(sorted[j]) {
      assert sorted[j] in multiset(fs);
      var i :| 0 <= i < |fs| && fs[i] == sorted[j];
    }
  }

  /** The ranked input is in descending rank and a permutation of the
      input. */
  lemma RankedPerm(fs: seq<FormatDesc>)
    ensures SortedDesc(SortDesc(fs, RankOf), RankOf)
    ensures multiset(SortDesc(fs, RankOf)) == multiset(fs)
  {
    SortDescSpec(fs, RankOf);
  }

  /** The ranked input holds exactly the input's descriptors. */
  lemma SortedMembers(fs: seq<FormatDesc>)
    ensures forall x :: x in SortDesc(fs, RankOf) <==> x in fs
  {
    var sorted := SortDesc(fs, RankOf);
    RankedPerm(fs);
    forall x ensures x in sorted <==> x in fs {
      assert x in sorted <==> x in multiset(sorted);
      assert x in fs <==> x in multiset(fs);
    }
  }

  /** Each kept descriptor qualifies and comes from the input, and no two
      share a label. */
  lemma KeptFromInput(fs: seq<FormatDesc>, p: FormatDesc -> bool, labelOf: FormatDesc -> string)
    ensures var k := Kept(fs, p, labelOf);
      && (forall i :: 0 <= i < |k| ==> k[i] in fs && p(k[i]))
      && (forall i, j :: 0 <= i < j < |k| ==> labelOf(k[i]) != labelOf(k[j]))
  {
    var sorted := SortDesc(fs, RankOf);
    SortedMembers(fs);
    var sel := Select(sorted, p);
    SelectMembers(sorted, p);
    FirstByKeyDistinct(sel, labelOf);
    forall i | 0 <= i < |Kept(fs, p, labelOf)| ensures Kept(fs, p, labelOf)[i] in sel {
      FirstByKeyFromInput(sel, labelOf, i);
    }
  }

  /** Every qualifying descriptor's label is the label of a kept one. */
  lemma KeptCovers(fs: seq<FormatDesc>, p: FormatDesc -> bool, labelOf: FormatDesc -> string)
    ensures forall f :: f in fs && p(f) ==> labelOf(f) in KeySet(Kept(fs, p, labelOf), labelOf)
  {
    var sorted := SortDesc(fs, RankOf);
    SortedMembers(fs);
    var sel := Select(sorted, p);
    SelectMembers(sorted, p);
    FirstByKeyKeys(sel, labelOf);
    forall f | f in fs && p(f) ensures labelOf(f) in KeySet(sel, labelOf) {
      var m :| 0 <= m < |sel| && sel[m] == f;
    }
  }

  /** A prefix of a list in descending rank is in descending rank. */
  lemma SortedPrefix<T>(s: seq<T>, rank: T -> Rank)
    requires SortedDesc(s, rank) && s != []
    ensures SortedDesc(s[..|s| - 1], rank)
  {
    var q := s[..|s| - 1];
    forall i, j | 0 <= i < j < |q| ensures !Below(rank(q[i]), rank(q[j])) {
      assert q[i] == s[i] && q[j] == s[j];
    }
  }

  /** Keeping the first of each key keeps a descending order. */
  lemma {:induction false} FirstByKeySorted<T, K>(s: seq<T>, key: T -> K, rank: T -> Rank)
    requires SortedDesc(s, rank)
    ensures SortedDesc(FirstByKey(s, key), rank)
    decreases |s|
  {
    if s != [] {
      var q, x := s[..|s| - 1], s[|s| - 1];
      SortedPrefix(s, rank);
      FirstByKeySorted(q, key, rank);
      FirstByKeyKeeps(q, key, y => !Below(rank(y), rank(x)));
    }
  }

  /** In a list in descending rank, the first element of each key outranks,
      or ties with, every element of that key. */
  lemma {:induction false} FirstByKeyBest<T, K>(s: seq<T>, key: T -> K, rank: T -> Rank)
    requires SortedDesc(s, rank)
    ensures var r := FirstByKey(s, key);
      forall i, j :: 0 <= i < |r| && 0 <= j < |s| && key(s[j]) == key(r[i]) ==> !Below(rank(r[i]), rank(s[j]))
    decreases |s|
  {
    if s != [] {
      var q, x := s[..|s| - 1], s[|s| - 1];
      SortedPrefix(s, rank);
      FirstByKeyBest(q, key, rank);
      FirstByKeyKeeps(q, key, y => !Below(rank(y), rank(x)));
      FirstByKeyKeys(q, key);
      var rq := FirstByKey(q, key);
      var r := FirstByKey(s, key);
      assert s == q + [x];
      forall i, j | 0 <= i < |r| && 0 <= j < |s| && key(s[j]) == key(r[i])
        ensures !Below(rank(r[i]), rank(s[j]))
      {
        if i < |rq| {
          assert r[i] == rq[i];
          if j < |q| {
            assert s[j] == q[j];
          }
        }
      }
    }
  }

  /** The kept descriptors are in descending rank. */
  lemma KeptSorted(fs: seq<FormatDesc>, p: FormatDesc -> bool, labelOf: FormatDesc -> string)
    ensures SortedDesc(Kept(fs, p, labelOf), RankOf)
  {
    var sorted := SortDesc(fs, RankOf);
    RankedPerm(fs);
    SelectSorted(sorted, p, RankOf);
    FirstByKeySorted(Select(sorted, p), labelOf, RankOf);
  }

  /** Each kept descriptor outranks, or ties with, every qualifying
      descriptor of its label. */
  lemma KeptBest(fs: seq<FormatDesc>, p: FormatDesc -> bool, labelOf: FormatDesc -> string)
    ensures var k := Kept(fs, p, labelOf);
      forall i, f :: 0 <= i < |k| && f in fs && p(f) && labelOf(f) == labelOf(k[i]) ==>
        !Below(RankOf(k[i]), RankOf(f))
  {
    var sorted := SortDesc(fs, RankOf);
    RankedPerm(fs);
    SortedMembers(fs);
    var sel := Select(sorted, p);
    SelectMembers(sorted, p);
    SelectSorted(sorted, p, RankOf);
    FirstByKeyBest(sel, labelOf, RankOf);
    var k := FirstByKey(sel, labelOf);
    forall i, f | 0 <= i < |k| && f in fs && p(f) && labelOf(f) == labelOf(k[i])
      ensures !Below(RankOf(k[i]), RankOf(f))
    {
      var m :| 0 <= m < |sel| && sel[m] == f;
      assert i < |FirstByKey(sel, labelOf)| && m < |sel| && labelOf(sel[m]) == labelOf(FirstByKey(sel, labelOf)[i]);
      assert labelOf(sel[m]) == labelOf(k[i]);
    }
  }


  /** A choice made from a descriptor is never a fallback entry: its text
      is longer than "Best Video" and "Best Audio". */
  lemma ToInfoNotFallback(f: FormatDesc, name: string)
    requires |name| >= 5
    ensures ToInfo(f, name) != BestVideo && ToInfo(f, name) != BestAudio
  {
    assert |ToInfo(f, name).text| >= 11;
  }

  lemma LabelLengths(f: FormatDesc)
    ensures |VideoLabel(f)| >= 5 && |AudioLabel(f)| >= 5
  {
    assert |IntToString(f.height.GetOr(0))| >= 1;
    assert |IntToString(TruncReal(f.abr.GetOr(0.0)))| >= 1;
  }

  /** The video list is never empty, and is the single "Best Video" entry
      exactly when no descriptor qualifies as a video choice. */
  lemma VideoFallback(info: InfoDict)
    ensures |VideoList(info)| >= 1
    ensures VideoList(info) == [BestVideo]
        <==> forall i :: 0 <= i < |info.formats| ==> !IsVideoChoice(info.formats[i])
  {
    var fs := info.formats;
    KeptEmpty(fs, IsVideoChoice, VideoLabel);
    var kept := VideoKept(fs);
    if kept != [] {
      LabelLengths(kept[0]);
      ToInfoNotFallback(kept[0], VideoLabel(kept[0]));
      assert VideoList(info)[0] == ToInfo(kept[0], VideoLabel(kept[0]));
    }
  }

  /** The audio list gets "Best Audio" exactly when no descriptor qualifies
      as an audio choice and audio_ext is not "none"; it is empty when
      neither holds. */
  lemma AudioFallback(info: InfoDict)
    ensures AudioList(info) == [BestAudio]
        <==> (forall i :: 0 <= i < |info.formats| ==> !IsAudioChoice(info.formats[i])) && info.audioExt != Some("none")
    ensures AudioList(info) == []
        <==> (forall i :: 0 <= i < |info.formats| ==> !IsAudioChoice(info.formats[i])) && info.audioExt == Some("none")
  {
    var fs := info.formats;
    KeptEmpty(fs, IsAudioChoice, AudioLabel);
    var kept := AudioKept(fs);
    if kept != [] {
      LabelLengths(kept[0]);
      ToInfoNotFallback(kept[0], AudioLabel(kept[0]));
      assert AudioList(info)[0] == ToInfo(kept[0], AudioLabel(kept[0]));
    }
  }

  /** Fallback aside, the i-th video choice is made from the i-th kept
      descriptor, which is one of the input's and qualifies; its id is that
      descriptor's format_id. */
  lemma VideoEntries(info: InfoDict)
    ensures var k, out := VideoKept(info.formats), VideoList(info);
      k != [] ==>
        && |out| == |k|
        && forall i :: 0 <= i < |k| ==>
             out[i] == VideoInfo(k[i]) && k[i] in info.formats && IsVideoChoice(k[i])
             && out[i].id == k[i].formatId.value
  {
    KeptFromInput(info.formats, IsVideoChoice, VideoLabel);
  }

  /** The same for the audio choices. */
  lemma AudioEntries(info: InfoDict)
    ensures var k, out := AudioKept(info.formats), AudioList(info);
      k != [] ==>
        && |out| == |k|
        && forall i :: 0 <= i < |k| ==>
             out[i] == AudioInfo(k[i]) && k[i] in info.formats && IsAudioChoice(k[i])
             && out[i].id == k[i].formatId.value
  {
    KeptFromInput(info.formats, IsAudioChoice, AudioLabel);
  }
}
