/** The format records of the console front end (core/models.py) and the
    label a video format is listed with. */
module Models {
  import opened Common

  datatype AudioFormat = AudioFormat(id: string, abr: int, ext: string, sizeMb: string)

  datatype VideoFormat = VideoFormat(id: string, res: string, fps: int, ext: string, sizeMb: string, isMerged: bool)

  const FfmpegNeeded := "(требуется FFmpeg)"
  const FfmpegMissing := "[red](FFmpeg не найден)[/red]"

  /** Nothing for a format that already has its audio; otherwise a warning
      that FFmpeg must merge it, marked up in red when FFmpeg is missing. */
  function Note(v: VideoFormat, ffmpegAvailable: bool): string {
    if v.isMerged then "" else if ffmpegAvailable then FfmpegNeeded else FfmpegMissing
  }

  /** "{res} @ {fps}fps ({size_mb})". */
  function Summary(v: VideoFormat): string {
    v.res + " @ " + IntToString(v.fps) + "fps (" + v.sizeMb + ")"
  }

  /** get_display_label: the summary, a space and the note, stripped. The
      label never begins or ends with whitespace and is a piece of that
      text. */
  function GetDisplayLabel(v: VideoFormat, ffmpegAvailable: bool): (r: string)
    ensures IsStripped(r)
    ensures Contains(Summary(v) + " " + Note(v, ffmpegAvailable), r)
  {
    Strip(Summary(v) + " " + Note(v, ffmpegAvailable))
  }

  /** A summary whose resolution text does not begin with whitespace has
      none at either end (it ends with ')'). */
  lemma SummaryStripped(v: VideoFormat)
    requires |v.res| >= 1 && !IsSpace(v.res[0])
    ensures IsStripped(Summary(v)) && Summary(v) != []
  {
    var s := Summary(v);
    assert s[0] == v.res[0];
    assert s[|s| - 1] == ')';
  }

  /** A merged format is labelled with its summary alone, whether FFmpeg is
      there or not; exactly the summary when the resolution text does not
      begin with whitespace (strip takes that off too). */
  lemma MergedLabel(v: VideoFormat)
    requires v.isMerged
    ensures GetDisplayLabel(v, true) == GetDisplayLabel(v, false)
    ensures |v.res| >= 1 && !IsSpace(v.res[0]) ==> GetDisplayLabel(v, true) == Summary(v)
  {
    if |v.res| >= 1 && !IsSpace(v.res[0]) {
      SummaryStripped(v);
      assert Summary(v) + " " + Note(v, true) == Summary(v) + " ";
      StripTrailingSpace(Summary(v), " ");
    }
  }

  /** A format without audio is labelled with the note at the end: the
      FFmpeg requirement when FFmpeg is there, the red "not found" warning
      when not. With a resolution text that does not begin with whitespace
      the label is exactly the summary, a space and the note. */
  lemma UnmergedLabel(v: VideoFormat, ffmpegAvailable: bool)
    requires !v.isMerged
    ensures Note(v, ffmpegAvailable) == if ffmpegAvailable then FfmpegNeeded else FfmpegMissing
    ensures EndsWith(GetDisplayLabel(v, ffmpegAvailable), Note(v, ffmpegAvailable))
    ensures |v.res| >= 1 && !IsSpace(v.res[0]) ==>
      GetDisplayLabel(v, ffmpegAvailable) == Summary(v) + " " + Note(v, ffmpegAvailable)
  {
    var note := Note(v, ffmpegAvailable);
    StripKeepsEnd(Summary(v) + " ", note);
    if |v.res| >= 1 && !IsSpace(v.res[0]) {
      var s := Summary(v) + " " + note;
      assert s[0] == v.res[0];
      assert s[|s| - 1] == note[|note| - 1];
      StripOfStripped(s);
    }
  }

  /** Strip leaves a text that ends in a piece without whitespace at
      either end still ending in it. */
  lemma StripKeepsEnd(head: string, tail: string)
    requires tail != [] && !IsSpace(tail[0]) && !IsSpace(tail[|tail| - 1])
    ensures EndsWith(Strip(head + tail), tail)
  {
    var s := head + tail;
    assert s[|s| - |tail|..] == tail;
    var l := LTrim(s, IsSpace);
    assert !IsSpace(s[|s| - |tail|]);
    assert |l| >= |tail|;
    assert l[|l| - 1] == s[|s| - 1];
    var r := RTrim(l, IsSpace);
    assert r == l;
    assert r[|r| - |tail|..] == s[|s| - |tail|..];
  }
}
