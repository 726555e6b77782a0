/** The subtitle helper script (yt_subs.py): finding the video id in a link
    or a bare id, and writing a transcript as a SubRip (.srt) file. Times are
    whole milliseconds here. */
module YtSubs {
  import opened Common

  // ---------------------------------------------------------------------
  // extract_video_id

  /** The regex class [A-Za-z0-9_\-]. */
  predicate IsIdChar(c: char) {
    ('A' <= c <= 'Z') || ('a' <= c <= 'z') || ('0' <= c <= '9') || c == '_' || c == '-'
  }

  predicate AllId(s: string) {
    forall i :: 0 <= i < |s| ==> IsIdChar(s[i])
  }

  /** re.fullmatch(r"[A-Za-z0-9_\-]{10,}", s). */
  predicate IsBareId(s: string) {
    |s| >= 10 && AllId(s)
  }

  /** Length of the run of id characters starting at from: what the greedy
      [A-Za-z0-9_\-]{10,} takes there. */
  function IdRun(s: string, from: nat): (k: nat)
    requires from <= |s|
    ensures from + k <= |s|
    ensures AllId(s[from..from + k])
    ensures from + k == |s| || !IsIdChar(s[from + k])
    decreases |s| - from
  {
    if from < |s| && IsIdChar(s[from]) then
      var k := IdRun(s, from + 1) + 1;
      assert s[from..from + k] == [s[from]] + s[from + 1..from + k];
      k
    else 0
  }

  /** The marker occurs at p and at least 10 id characters follow it. */
  predicate Marked(s: string, marker: string, p: int) {
    OccursAt(s, marker, p) && IdRun(s, p + |marker|) >= 10
  }

  /** The leftmost position from from on where the marker and its id
      match: where re.search's scan stops. */
  function FirstMarked(s: string, marker: string, from: nat): (r: Option<nat>)
    requires from <= |s| + 1
    ensures r.Some? ==> from <= r.value <= |s| && Marked(s, marker, r.value)
    ensures r.Some? ==> forall q :: from <= q < r.value ==> !Marked(s, marker, q)
    ensures r.None? ==> forall q :: from <= q <= |s| ==> !Marked(s, marker, q)
    decreases |s| + 1 - from
  {
    if from > |s| then None
    else if Marked(s, marker, from) then Some(from)
    else FirstMarked(s, marker, from + 1)
  }

  /** re.search(marker + "([A-Za-z0-9_\-]{10,})", s).group(1): the whole run
      of id characters after the leftmost marker that has 10 or more. */
  function Capture(s: string, marker: string): (r: Option<string>)
    ensures r.None? <==> forall p :: 0 <= p <= |s| ==> !Marked(s, marker, p)
    ensures r.Some? ==> exists p :: CapturedAt(s, marker, p, r.value)
  {
    match FirstMarked(s, marker, 0)
    case None => None
    case Some(p) =>
      var v := s[p + |marker|..p + |marker| + IdRun(s, p + |marker|)];
      assert CapturedAt(s, marker, p, v);
      Some(v)
  }

  /** v is the whole run of id characters after the leftmost match of the
      marker, at p. */
  predicate CapturedAt(s: string, marker: string, p: int, v: string) {
    0 <= p <= |s| && Marked(s, marker, p)
    && (forall q :: 0 <= q < p ==> !Marked(s, marker, q))
    && v == s[p + |marker|..p + |marker| + IdRun(s, p + |marker|)]
  }

  /** A '/' at p followed by 10 or more id characters up to the end. */
  predicate TrailMarked(s: string, p: int) {
    0 <= p < |s| && s[p] == '/' && |s| - (p + 1) >= 10 && IdRun(s, p + 1) == |s| - (p + 1)
  }

  /** The leftmost position from from on where "/" and an id ending the
      text match. */
  function FirstTrail(s: string, from: nat): (r: Option<nat>)
    requires from <= |s|
    ensures r.Some? ==> from <= r.value < |s| && TrailMarked(s, r.value)
    ensures r.None? ==> forall q :: from <= q < |s| ==> !TrailMarked(s, q)
    decreases |s| - from
  {
    if from == |s| then None
    else if TrailMarked(s, from) then Some(from)
    else FirstTrail(s, from + 1)
  }

  /** re.search(r"/([A-Za-z0-9_\-]{10,})$", s).group(1). The text is
      stripped, so $ can only match at its very end. */
  function TrailingId(s: string): (r: Option<string>)
    ensures r.None? <==> forall p :: 0 <= p < |s| ==> !TrailMarked(s, p)
    ensures r.Some? ==> exists p :: 0 <= p < |s| && TrailMarked(s, p) && r.value == s[p + 1..]
  {
    match FirstTrail(s, 0)
    case None => None
    case Some(p) => Some(s[p + 1..])
  }

  const WatchMarker := "v="
  const ShortMarker := "youtu.be/"
  const EmbedMarker := "embed/"

  /** extract_video_id: None where the source raises ValueError. The
      stripped text itself when it is a bare id; otherwise the first of the
      v=, youtu.be/, embed/ and trailing /ID captures that exists. */
  function ExtractVideoId(urlOrId: string): (r: Option<string>)
    ensures IsBareId(Strip(urlOrId)) ==> r == Some(Strip(urlOrId))
    ensures r.Some? ==> IsBareId(r.value) && Contains(Strip(urlOrId), r.value)
    ensures r.None? <==>
      var s := Strip(urlOrId);
      && !IsBareId(s)
      && (forall p :: 0 <= p <= |s| ==> !Marked(s, WatchMarker, p))
      && (forall p :: 0 <= p <= |s| ==> !Marked(s, ShortMarker, p))
      && (forall p :: 0 <= p <= |s| ==> !Marked(s, EmbedMarker, p))
      && (forall p :: 0 <= p < |s| ==> !TrailMarked(s, p))
  {
    var s := Strip(urlOrId);
    if IsBareId(s) then
      assert OccursAt(s, s, 0);
      Some(s)
    else
      var watch, short, embed, trail := Capture(s, WatchMarker), Capture(s, ShortMarker), Capture(s, EmbedMarker), TrailingId(s);
      CaptureShape(s, WatchMarker);
      CaptureShape(s, ShortMarker);
      CaptureShape(s, EmbedMarker);
      TrailingShape(s);
      if watch.Some? then watch
      else if short.Some? then short
      else if embed.Some? then embed
      else trail
  }

  /** A capture is 10 or more id characters found in the text. */
  lemma CaptureShape(s: string, marker: string)
    ensures Capture(s, marker).Some? ==> IsBareId(Capture(s, marker).value) && Contains(s, Capture(s, marker).value)
  {
    if Capture(s, marker).Some? {
      var p :| CapturedAt(s, marker, p, Capture(s, marker).value);
      assert OccursAt(s, Capture(s, marker).value, p + |marker|);
    }
  }

  lemma TrailingShape(s: string)
    ensures TrailingId(s).Some? ==> IsBareId(TrailingId(s).value) && Contains(s, TrailingId(s).value)
  {
    if TrailingId(s).Some? {
      var p :| 0 <= p < |s| && TrailMarked(s, p) && TrailingId(s).value == s[p + 1..];
      assert s[p + 1..] == s[p + 1..p + 1 + IdRun(s, p + 1)];
      assert OccursAt(s, TrailingId(s).value, p + 1);
    }
  }

  // ---------------------------------------------------------------------
  // fmt: the SubRip timestamp

  /** "H:MM:SS,mmm" laid out from its four fields. */
  function Stamp(h: string, m: string, s: string, ms: string): string {
    h + ":" + m + ":" + s + "," + ms
  }

  /** f"{h:02d}:{m:02d}:{s:02d},{ms:03d}" for t milliseconds: hours (two
      digits or more), minutes, seconds, milliseconds. */
  function Fmt(t: nat): string {
    Stamp(PadNat(t / 3600000, 2), PadNat(t % 3600000 / 60000, 2), PadNat(t % 60000 / 1000, 2), PadNat(t % 1000, 3))
  }

  predicate AllDigits(s: string) {
    forall i :: 0 <= i < |s| ==> IsDigit(s[i])
  }

  /** Reads "H:MM:SS,mmm" (H one digit or more) back into milliseconds. */
  function ReadTimestamp(r: string): Option<nat> {
    if |r| >= 11 && r[|r| - 4] == ',' && r[|r| - 7] == ':' && r[|r| - 10] == ':'
      && AllDigits(r[..|r| - 10]) && AllDigits(r[|r| - 9..|r| - 7])
      && AllDigits(r[|r| - 6..|r| - 4]) && AllDigits(r[|r| - 3..])
    then
      Some(DigitsValue(r[..|r| - 10]) * 3600000 + DigitsValue(r[|r| - 9..|r| - 7]) * 60000
        + DigitsValue(r[|r| - 6..|r| - 4]) * 1000 + DigitsValue(r[|r| - 3..]))
    else None
  }

  /** t splits into hours, minutes below 60, seconds below 60 and
      milliseconds below 1000. */
  lemma TimeFields(t: nat)
    ensures t % 3600000 / 60000 < 60 && t % 60000 / 1000 < 60 && t % 1000 < 1000
    ensures t / 3600000 * 3600000 + t % 3600000 / 60000 * 60000 + t % 60000 / 1000 * 1000 + t % 1000 == t
  {
    var h, r1 := t / 3600000, t % 3600000;
    var m, r2 := r1 / 60000, r1 % 60000;
    assert r1 == m * 60000 + r2 && m < 60;
    MinuteRemainder(t, h * 60 + m, r2);
    var s, r3 := r2 / 1000, r2 % 1000;
    assert r2 == s * 1000 + r3 && s < 60;
    SecondRemainder(t, (h * 60 + m) * 60 + s, r3);
  }

  /** What is left of t below a whole minute. */
  lemma MinuteRemainder(t: int, q: int, r: int)
    requires 0 <= r < 60000 && t == q * 60000 + r
    ensures t % 60000 == r
  {
  }

  /** What is left of t below a whole second. */
  lemma SecondRemainder(t: int, q: int, r: int)
    requires 0 <= r < 1000 && t == q * 1000 + r
    ensures t % 1000 == r
  {
  }

  /** Digit fields of the widths fmt writes read back as their values. */
  lemma StampReadsBack(h: string, m: string, s: string, ms: string)
    requires |h| >= 1 && |m| == 2 && |s| == 2 && |ms| == 3
    requires AllDigits(h) && AllDigits(m) && AllDigits(s) && AllDigits(ms)
    ensures ReadTimestamp(Stamp(h, m, s, ms))
      == Some(DigitsValue(h) * 3600000 + DigitsValue(m) * 60000 + DigitsValue(s) * 1000 + DigitsValue(ms))
  {
    StampLayout(h, m, s, ms);
  }

  /** Where each field and separator of a timestamp sits, counting from
      its end. */
  lemma StampLayout(h: string, m: string, s: string, ms: string)
    requires |m| == 2 && |s| == 2 && |ms| == 3
    ensures var r := Stamp(h, m, s, ms);
      |r| == |h| + 10 && r[|r| - 4] == ',' && r[|r| - 7] == ':' && r[|r| - 10] == ':'
      && r[..|r| - 10] == h && r[|r| - 9..|r| - 7] == m && r[|r| - 6..|r| - 4] == s && r[|r| - 3..] == ms
  {
    var r := Stamp(h, m, s, ms);
    assert r[..|r| - 10] == h;
    assert r[|r| - 9] == m[0] && r[|r| - 8] == m[1];
    assert r[|r| - 9..|r| - 7] == m;
    assert r[|r| - 6] == s[0] && r[|r| - 5] == s[1];
    assert r[|r| - 6..|r| - 4] == s;
    assert r[|r| - 3] == ms[0] && r[|r| - 2] == ms[1] && r[|r| - 1] == ms[2];
    assert r[|r| - 3..] == ms;
  }

  /** The timestamp fmt writes has two-digit minutes and seconds and
      three-digit milliseconds, and reads back as the same time. */
  lemma FmtReadsBack(t: nat)
    ensures ReadTimestamp(Fmt(t)) == Some(t)
  {
    var h, m, s, ms := t / 3600000, t % 3600000 / 60000, t % 60000 / 1000, t % 1000;
    TimeFields(t);
    PadNatExact(m, 2);
    PadNatExact(s, 2);
    PadNatExact(ms, 3);
    PadNatValue(h, 2);
    PadNatValue(m, 2);
    PadNatValue(s, 2);
    PadNatValue(ms, 3);
    StampReadsBack(PadNat(h, 2), PadNat(m, 2), PadNat(s, 2), PadNat(ms, 3));
  }

  // ---------------------------------------------------------------------
  // save_as_srt

  /** One transcript segment; None stands for a missing key. */
  datatype Segment = Segment(start: Option<nat>, duration: Option<nat>, text: Option<string>)

  function StartOf(seg: Segment): nat {
    seg.start.GetOr(0)
  }

  function EndOf(seg: Segment): nat {
    seg.start.GetOr(0) + seg.duration.GetOr(0)
  }

  /** A SubRip cue: its number, its times and its text, each on a line of
      its own, and an empty line after. */
  function Block(num: string, times: string, text: string): string {
    num + "\n" + times + "\n" + text + "\n\n"
  }

  /** The line with a segment's start and end times. */
  function Times(seg: Segment): string {
    Fmt(StartOf(seg)) + " --> " + Fmt(EndOf(seg))
  }

  /** The block written for the i-th segment. */
  function Cue(i: nat, seg: Segment): string {
    Block(NatToString(i), Times(seg), Strip(seg.text.GetOr("")))
  }

  /** The cues of ts numbered on from first, cue writing each one. */
  function Numbered(ts: seq<Segment>, first: nat, cue: (nat, Segment) -> string): string
    decreases |ts|
  {
    if ts == [] then "" else Numbered(ts[..|ts| - 1], first, cue) + cue(first + |ts| - 1, ts[|ts| - 1])
  }

  /** The file save_as_srt writes: the cues numbered from 1 in order. */
  function Srt(ts: seq<Segment>): string {
    Numbered(ts, 1, Cue)
  }

  /** save_as_srt with the file as the returned text. */
  method SaveAsSrt(transcript: seq<Segment>) returns (out: string)
    ensures out == Srt(transcript)
  {
    out := "";
    for i := 0 to |transcript|
      invariant out == Numbered(transcript[..i], 1, Cue)
    {
      var seg := transcript[i];
      NumberedSnoc(transcript, i, 1, Cue);
      out := out + Cue(i + 1, seg);
    }
    assert transcript[..|transcript|] == transcript;
  }

  lemma NumberedSnoc(ts: seq<Segment>, i: nat, first: nat, cue: (nat, Segment) -> string)
    requires i < |ts|
    ensures Numbered(ts[..i + 1], first, cue) == Numbered(ts[..i], first, cue) + cue(first + i, ts[i])
  {
    assert ts[..i + 1][..i] == ts[..i];
  }

  /** Numbering the cues of a + b is numbering those of a, then those of b
      on from where a stops. */
  lemma {:induction false} NumberedAppend(a: seq<Segment>, b: seq<Segment>, first: nat, cue: (nat, Segment) -> string)
    ensures Numbered(a + b, first, cue) == Numbered(a, first, cue) + Numbered(b, first + |a|, cue)
    decreases |b|
  {
    if b == [] {
      assert a + b == a;
    } else {
      var p := b[..|b| - 1];
      NumberedAppend(a, p, first, cue);
      assert (a + b)[..|a + b| - 1] == a + p;
    }
  }

  /** The entry at k (from 0) gets number first + k, after the cues of the
      entries before it and before those of the entries after it. */
  lemma NumberedAt(ts: seq<Segment>, k: nat, first: nat, cue: (nat, Segment) -> string)
    requires k < |ts|
    ensures Numbered(ts, first, cue)
      == Numbered(ts[..k], first, cue) + cue(first + k, ts[k]) + Numbered(ts[k + 1..], first + k + 1, cue)
  {
    var a, b := ts[..k + 1], ts[k + 1..];
    NumberedAppend(a, b, first, cue);
    NumberedSnoc(ts, k, first, cue);
    assert a + b == ts;
  }

  /** Segment k (from 0) gets cue number k + 1, after the cues of the
      segments before it and before those of the segments after it. */
  lemma SrtAt(ts: seq<Segment>, k: nat)
    requires k < |ts|
    ensures Srt(ts) == Srt(ts[..k]) + Cue(k + 1, ts[k]) + Numbered(ts[k + 1..], k + 2, Cue)
  {
    NumberedAt(ts, k, 1, Cue);
  }

  /** The first two lines of a block are its number and its times, when
      neither holds a line break. */
  lemma BlockLines(num: string, times: string, text: string)
    requires '\n' !in num && '\n' !in times
    ensures SplitFirst(Block(num, times, text), "\n") == (num, Some(times + "\n" + text + "\n\n"))
    ensures SplitFirst(times + "\n" + text + "\n\n", "\n") == (times, Some(text + "\n\n"))
  {
    var tail := text + "\n\n";
    assert Block(num, times, text) == num + ['\n'] + (times + ['\n'] + tail);
    assert times + "\n" + text + "\n\n" == times + ['\n'] + tail;
    SplitFirstAtChar(num, '\n', times + ['\n'] + tail);
    SplitFirstAtChar(times, '\n', tail);
  }

  /** The i-th segment's cue starts with its number on a line of its own,
      then the line with its start and end times. */
  lemma CueLines(i: nat, seg: Segment)
    ensures SplitFirst(Cue(i, seg), "\n") == (NatToString(i), Some(Times(seg) + "\n" + Strip(seg.text.GetOr("")) + "\n\n"))
    ensures SplitFirst(Times(seg) + "\n" + Strip(seg.text.GetOr("")) + "\n\n", "\n").0 == Times(seg)
  {
    var num := NatToString(i);
    assert '\n' !in num by {
      forall k | 0 <= k < |num| ensures num[k] != '\n' {
        assert IsDigit(num[k]);
      }
    }
    TimesNoNewline(seg);
    BlockLines(num, Times(seg), Strip(seg.text.GetOr("")));
  }

  /** The number line reads back as the cue's number, and both times on
      the next line read back as the segment's start and its end (start
      plus duration). */
  lemma CueReadsBack(i: nat, seg: Segment)
    ensures DigitsValue(NatToString(i)) == i
    ensures ReadTimestamp(Fmt(StartOf(seg))) == Some(StartOf(seg))
    ensures ReadTimestamp(Fmt(EndOf(seg))) == Some(EndOf(seg))
    ensures EndOf(seg) == StartOf(seg) + seg.duration.GetOr(0)
  {
    NatToStringValue(i);
    FmtReadsBack(StartOf(seg));
    FmtReadsBack(EndOf(seg));
  }

  lemma TimesNoNewline(seg: Segment)
    ensures '\n' !in Times(seg)
  {
    FmtNoNewline(StartOf(seg));
    FmtNoNewline(EndOf(seg));
  }

  /** Digit fields laid out by Stamp hold no line break. */
  lemma StampNoNewline(h: string, m: string, s: string, ms: string)
    requires AllDigits(h) && AllDigits(m) && AllDigits(s) && AllDigits(ms)
    ensures '\n' !in Stamp(h, m, s, ms)
  {
    var r := Stamp(h, m, s, ms);
    forall k | 0 <= k < |r| ensures r[k] != '\n' {
      if k < |h| {
        assert r[k] == h[k];
      } else if |h| + 1 <= k < |h| + 1 + |m| {
        assert r[k] == m[k - |h| - 1];
      } else if |h| + 2 + |m| <= k < |h| + 2 + |m| + |s| {
        assert r[k] == s[k - |h| - 2 - |m|];
      } else if |h| + 3 + |m| + |s| <= k {
        assert r[k] == ms[k - |h| - 3 - |m| - |s|];
      }
    }
  }

  lemma FmtNoNewline(t: nat)
    ensures '\n' !in Fmt(t)
  {
    StampNoNewline(PadNat(t / 3600000, 2), PadNat(t % 3600000 / 60000, 2), PadNat(t % 60000 / 1000, 2), PadNat(t % 1000, 3));
  }
}
