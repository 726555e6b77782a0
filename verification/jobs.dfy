/** Job construction in draxon.py: the option overrides that
    smart_input_and_profiles derives for each URL from the active
    configuration and the URL's own overrides, build_ydl_opts_from_job,
    which turns one job into the engine's option dict, and the final loop
    in main. Where the source would raise a TypeError (a path built from a
    value that is not text) the model gives None. */
module Jobs {
  import opened Common
  import opened PyValue
  import opened Config
  import opened RateLimit

  /** The private key that marks a job for audio extraction. */
  const AudioFlag: string := "__audio_flag__"

  // -------------------------------------------------------------------
  // Shared pieces

  /** str(Path(dir) / name); None where Path raises because one of the two
      is not text. */
  function OutPath(dir: Value, name: Value): Option<string> {
    if dir.VStr? && name.VStr? then Some(PathJoin(dir.s, name.s)) else None
  }

  /** cfg.get("output_dir", "."). */
  function OutputDir(cfg: Dict): Value {
    GetOr(cfg, "output_dir", VStr("."))
  }

  /** The stripped, non-empty texts among parts, in order. */
  function NonEmptyStripped(parts: seq<string>): seq<string>
    decreases |parts|
  {
    if parts == [] then []
    else
      var l := Strip(parts[|parts| - 1]);
      NonEmptyStripped(parts[..|parts| - 1]) + (if l != "" then [l] else [])
  }

  /** [l.strip() for l in text.split(",") if l.strip()]. */
  function Langs(text: string): seq<string> {
    NonEmptyStripped(Split(text, ','))
  }

  /** What a language in such a list looks like. */
  predicate LangName(l: string) {
    l != "" && IsStripped(l) && ',' !in l
  }

  function StrList(xs: seq<string>): (r: seq<Value>)
    ensures |r| == |xs| && forall i :: 0 <= i < |xs| ==> r[i] == VStr(xs[i])
  {
    seq(|xs|, i requires 0 <= i < |xs| => VStr(xs[i]))
  }

  /** The subtitle languages are read with str(); the model reads text,
      numbers, booleans and None (str() of a list or an object, its repr,
      is not modelled). */
  predicate ScalarSubtitles(cfg: Dict) {
    IsScalar(GetOr(cfg, "subtitles_languages", VStr("")))
  }

  lemma {:induction false} NonEmptyStrippedShape(parts: seq<string>)
    requires forall i :: 0 <= i < |parts| ==> ',' !in parts[i]
    ensures forall i :: 0 <= i < |NonEmptyStripped(parts)| ==> LangName(NonEmptyStripped(parts)[i])
    decreases |parts|
  {
    if parts != [] {
      var last := parts[|parts| - 1];
      NonEmptyStrippedShape(parts[..|parts| - 1]);
      ContainsCharFree(last, Strip(last), ',');
    }
  }

  /** Every language read from a text is non-empty, stripped and free of
      commas. */
  lemma LangsShape(text: string)
    ensures forall i :: 0 <= i < |Langs(text)| ==> LangName(Langs(text)[i])
  {
    SplitPiecesFree(text, ',');
    NonEmptyStrippedShape(Split(text, ','));
  }

  lemma {:induction false} NonEmptyStrippedKeeps(parts: seq<string>)
    requires forall i :: 0 <= i < |parts| ==> LangName(parts[i])
    ensures NonEmptyStripped(parts) == parts
    decreases |parts|
  {
    if parts != [] {
      var init, last := parts[..|parts| - 1], parts[|parts| - 1];
      NonEmptyStrippedKeeps(init);
      assert LangName(last);
      StripOfStripped(last);
      NonEmptyStrippedLast(parts, last);
      assert parts == init + [last];
    }
  }

  lemma NonEmptyStrippedLast(parts: seq<string>, l: string)
    requires parts != [] && l == Strip(parts[|parts| - 1])
    ensures NonEmptyStripped(parts) == NonEmptyStripped(parts[..|parts| - 1]) + (if l != "" then [l] else [])
  {
  }

  /** A non-empty list of languages joined with ',' reads back as itself. */
  lemma LangsOfJoin(langs: seq<string>)
    requires |langs| >= 1 && forall i :: 0 <= i < |langs| ==> LangName(langs[i])
    ensures Langs(Join(langs, ',')) == langs
  {
    SplitJoin(langs, ',');
    NonEmptyStrippedKeeps(langs);
  }

  // -------------------------------------------------------------------
  // The job derived from the active configuration (draxon.py:469-487)

  /** The three subtitle keys, when the language list is not empty. */
  function WithLangs(d: Dict, langs: seq<string>): (r: Dict)
    ensures forall j :: (j != "writesubtitles" && j != "subtitleslangs" && j != "subtitlesformat"
                         ==> Get(r, j) == Get(d, j))
  {
    if langs == [] then d
    else Set(Set(Set(d, "writesubtitles", VBool(true)), "subtitleslangs", VList(StrList(langs))),
             "subtitlesformat", VStr("srt"))
  }

  /** The path the configuration's output template gives, when it is
      truthy; None where building it raises. */
  function ProfileOuttmpl(active: Dict): Option<Value> {
    var tmpl := GetOr(active, "output_template", VNone);
    if !Truthy(tmpl) then Some(VNone)
    else match OutPath(OutputDir(active), tmpl)
      case None => None
      case Some(p) => Some(VStr(p))
  }

  /** d[k] = v when cond holds. */
  function SetIf(d: Dict, cond: bool, k: string, v: Value): (r: Dict)
    ensures forall j :: Get(r, j) == if cond && j == k then Some(v) else Get(d, j)
  {
    if cond then Set(d, k, v) else d
  }

  /** The first four assignments from the active configuration. */
  function ProfileHead(active: Dict): Dict {
    var fmt := GetOr(active, "video_format", VNone);
    var proxy := GetOr(active, "proxy", VNone);
    var rate := GetOr(active, "rate_limit", VNone);
    var resume := GetOr(active, "resume_download", VNone);
    var d1 := SetIf([], Truthy(fmt), "format", fmt);
    var d2 := SetIf(d1, Truthy(proxy), "proxy", proxy);
    var d3 := SetIf(d2, Truthy(rate), "ratelimit_str", rate);
    SetIf(d3, resume != VNone, "continuedl", VBool(Truthy(resume)))
  }

  /** job_overrides before the URL's own overrides: the keys assigned in
      order from the active configuration. */
  function ProfileJob(active: Dict): Option<Dict>
    requires ScalarSubtitles(active)
  {
    match ProfileOuttmpl(active)
    case None => None
    case Some(out) =>
      var d5 := SetIf(ProfileHead(active), out != VNone, "outtmpl", out);
      var d6 := WithLangs(d5, ProfileLangs(active));
      Some(Set(d6, "noplaylist", VBool(!Truthy(GetOr(active, "playlist", VBool(false))))))
  }

  lemma ProfileJobSome(active: Dict, out: Value)
    requires ScalarSubtitles(active) && ProfileOuttmpl(active) == Some(out)
    ensures ProfileJob(active) == Some(Set(WithLangs(SetIf(ProfileHead(active), out != VNone, "outtmpl", out),
                                                     ProfileLangs(active)),
                                           "noplaylist", VBool(!Truthy(GetOr(active, "playlist", VBool(false))))))
  {
  }

  /** The subtitle languages the active configuration asks for. */
  function ProfileLangs(active: Dict): seq<string>
    requires ScalarSubtitles(active)
  {
    var subs := GetOr(active, "subtitles_languages", VNone);
    if Truthy(subs) then Langs(Str(subs)) else []
  }

  /** Some(v) for a truthy v. */
  function IfTruthy(v: Value): Option<Value> {
    if Truthy(v) then Some(v) else None
  }

  /** What the first four assignments leave under each key. */
  function HeadValue(active: Dict, k: string): Option<Value> {
    var resume := GetOr(active, "resume_download", VNone);
    if k == "format" then IfTruthy(GetOr(active, "video_format", VNone))
    else if k == "proxy" then IfTruthy(GetOr(active, "proxy", VNone))
    else if k == "ratelimit_str" then IfTruthy(GetOr(active, "rate_limit", VNone))
    else if k == "continuedl" then (if resume != VNone then Some(VBool(Truthy(resume))) else None)
    else None
  }

  /** Four conditional assignments with distinct keys into an empty dict:
      each key holds its value exactly when its condition held. */
  lemma SetIfFour(c1: bool, k1: string, v1: Value, c2: bool, k2: string, v2: Value,
                  c3: bool, k3: string, v3: Value, c4: bool, k4: string, v4: Value, k: string)
    requires k1 != k2 && k1 != k3 && k1 != k4 && k2 != k3 && k2 != k4 && k3 != k4
    ensures Get(SetIf(SetIf(SetIf(SetIf([], c1, k1, v1), c2, k2, v2), c3, k3, v3), c4, k4, v4), k)
         == if k == k1 && c1 then Some(v1) else if k == k2 && c2 then Some(v2)
            else if k == k3 && c3 then Some(v3) else if k == k4 && c4 then Some(v4) else None
  {
  }

  lemma ProfileHeadGet(active: Dict, k: string)
    ensures Get(ProfileHead(active), k) == HeadValue(active, k)
  {
    var fmt := GetOr(active, "video_format", VNone);
    var proxy := GetOr(active, "proxy", VNone);
    var rate := GetOr(active, "rate_limit", VNone);
    var resume := GetOr(active, "resume_download", VNone);
    SetIfFour(Truthy(fmt), "format", fmt, Truthy(proxy), "proxy", proxy,
              Truthy(rate), "ratelimit_str", rate, resume != VNone, "continuedl", VBool(Truthy(resume)), k);
  }

  /** What the derived job holds under each key. */
  function ProfileJobValue(active: Dict, k: string): Option<Value>
    requires ScalarSubtitles(active) && ProfileOuttmpl(active).Some?
  {
    var langs := ProfileLangs(active);
    if k == "outtmpl" then
      (if ProfileOuttmpl(active).value != VNone then ProfileOuttmpl(active) else None)
    else if k == "writesubtitles" then (if langs != [] then Some(VBool(true)) else None)
    else if k == "subtitleslangs" then (if langs != [] then Some(VList(StrList(langs))) else None)
    else if k == "subtitlesformat" then (if langs != [] then Some(VStr("srt")) else None)
    else if k == "noplaylist" then Some(VBool(!Truthy(GetOr(active, "playlist", VBool(false)))))
    else HeadValue(active, k)
  }

  /** The derived job exists unless the output path cannot be built; it
      holds the truthy format, proxy and rate of the configuration, the
      resume setting unless it is None, the joined output path, the
      subtitle keys exactly when some language is given, and noplaylist as
      the negation of playlist; nothing else. */
  lemma ProfileJobGet(active: Dict, k: string)
    requires ScalarSubtitles(active)
    ensures ProfileJob(active).Some? <==> ProfileOuttmpl(active).Some?
    ensures ProfileJob(active).Some? ==> Get(ProfileJob(active).value, k) == ProfileJobValue(active, k)
  {
    if ProfileOuttmpl(active).Some? {
      var out := ProfileOuttmpl(active).value;
      var h := ProfileHead(active);
      var langs := ProfileLangs(active);
      var np := VBool(!Truthy(GetOr(active, "playlist", VBool(false))));
      ProfileHeadGet(active, k);
      JobTail(h, out, langs, np, k);
    }
  }

  /** The assignments after the first four: outtmpl when it is not None,
      the subtitle keys when some language is given, noplaylist always. */
  lemma JobTail(h: Dict, out: Value, langs: seq<string>, np: Value, k: string)
    ensures var r := Set(WithLangs(SetIf(h, out != VNone, "outtmpl", out), langs), "noplaylist", np);
      Get(r, k) == if k == "noplaylist" then Some(np)
        else if k == "writesubtitles" then (if langs != [] then Some(VBool(true)) else Get(h, k))
        else if k == "subtitleslangs" then (if langs != [] then Some(VList(StrList(langs))) else Get(h, k))
        else if k == "subtitlesformat" then (if langs != [] then Some(VStr("srt")) else Get(h, k))
        else if k == "outtmpl" && out != VNone then Some(out)
        else Get(h, k)
  {
    var d5 := SetIf(h, out != VNone, "outtmpl", out);
    WithLangsGet(d5, langs, k);
  }

  lemma WithLangsGet(d: Dict, langs: seq<string>, k: string)
    ensures Get(WithLangs(d, langs), k)
         == if langs != [] && k == "writesubtitles" then Some(VBool(true))
            else if langs != [] && k == "subtitleslangs" then Some(VList(StrList(langs)))
            else if langs != [] && k == "subtitlesformat" then Some(VStr("srt"))
            else Get(d, k)
  {
  }

  // -------------------------------------------------------------------
  // The URL's own overrides (draxon.py:489-502)

  /** Where one override of the URL goes and the value stored there: audio
      and playlist become booleans under __audio_flag__ and noplaylist
      (negated), rate goes to ratelimit_str, a relative outtmpl is joined to
      output_dir, any other key is copied verbatim. None where Path raises:
      an outtmpl that is not text, or a relative one with an output_dir that
      is not text. */
  function Target(e: Entry, active: Dict): Option<Entry> {
    var v := e.val;
    if e.key == "audio" then Some(Entry(AudioFlag, VBool(Truthy(v))))
    else if e.key == "format" then Some(Entry("format", v))
    else if e.key == "outtmpl" then
      if !v.VStr? then None
      else if IsAbsolute(v.s) then Some(Entry("outtmpl", v))
      else (match OutPath(OutputDir(active), v)
            case None => None
            case Some(p) => Some(Entry("outtmpl", VStr(p))))
    else if e.key == "proxy" then Some(Entry("proxy", v))
    else if e.key == "rate" then Some(Entry("ratelimit_str", v))
    else if e.key == "playlist" then Some(Entry("noplaylist", VBool(!Truthy(v))))
    else Some(e)
  }

  /** Target with the active configuration fixed. */
  function Targets(active: Dict): Entry -> Option<Entry> {
    e => Target(e, active)
  }

  /** The job after the overrides, in order, each stored where t puts it;
      None as soon as t gives None. */
  function ApplyAll(job: Dict, ov: seq<Entry>, t: Entry -> Option<Entry>): Option<Dict>
    decreases |ov|
  {
    if ov == [] then Some(job)
    else match ApplyAll(job, ov[..|ov| - 1], t)
      case None => None
      case Some(d) =>
        match t(ov[|ov| - 1])
        case None => None
        case Some(e) => Some(Set(d, e.key, e.val))
  }

  /** Every override can be stored. */
  predicate AllStored(ov: seq<Entry>, t: Entry -> Option<Entry>) {
    forall i :: 0 <= i < |ov| ==> t(ov[i]).Some?
  }

  /** The value stored under k by the last override that t puts at k. */
  function LastTarget(ov: seq<Entry>, k: string, t: Entry -> Option<Entry>): Option<Value>
    decreases |ov|
  {
    if ov == [] then None
    else
      var e := t(ov[|ov| - 1]);
      if e.Some? && e.value.key == k then Some(e.value.val) else LastTarget(ov[..|ov| - 1], k, t)
  }

  /** The overrides apply exactly when each of them can be stored. */
  lemma {:induction false} ApplyAllSome(job: Dict, ov: seq<Entry>, t: Entry -> Option<Entry>)
    ensures ApplyAll(job, ov, t).Some? <==> AllStored(ov, t)
    decreases |ov|
  {
    if ov != [] {
      var init := ov[..|ov| - 1];
      ApplyAllSome(job, init, t);
      assert forall i :: 0 <= i < |init| ==> init[i] == ov[i];
    }
  }

  /** The last override stored at a key beats the job's own value. */
  lemma {:induction false} ApplyAllGet(job: Dict, ov: seq<Entry>, t: Entry -> Option<Entry>, k: string)
    requires ApplyAll(job, ov, t).Some?
    ensures Get(ApplyAll(job, ov, t).value, k)
      == if LastTarget(ov, k, t).Some? then LastTarget(ov, k, t) else Get(job, k)
    decreases |ov|
  {
    if ov != [] {
      ApplyAllGet(job, ov[..|ov| - 1], t, k);
    }
  }

  lemma ApplyAllStep(job: Dict, ov: seq<Entry>, t: Entry -> Option<Entry>, i: nat)
    requires i < |ov|
    ensures ApplyAll(job, ov[..i + 1], t) ==
      match ApplyAll(job, ov[..i], t)
      case None => None
      case Some(d) =>
        match t(ov[i])
        case None => None
        case Some(e) => Some(Set(d, e.key, e.val))
  {
    assert ov[..i + 1][..i] == ov[..i];
  }

  /** Once a prefix of the overrides fails, all of them fail. */
  lemma {:induction false} ApplyAllNone(job: Dict, ov: seq<Entry>, t: Entry -> Option<Entry>, n: nat)
    requires n <= |ov| && ApplyAll(job, ov[..n], t).None?
    ensures ApplyAll(job, ov, t).None?
    decreases |ov| - n
  {
    if n < |ov| {
      ApplyAllStep(job, ov, t, n);
      ApplyAllNone(job, ov, t, n + 1);
    } else {
      assert ov[..n] == ov;
    }
  }

  /** A relative outtmpl override is joined under output_dir; an absolute
      one is kept as it is. */
  lemma OuttmplTarget(tmpl: string, dir: string, active: Dict, key: string)
    requires key == "outtmpl" && OutputDir(active) == VStr(dir)
    ensures Target(Entry(key, VStr(tmpl)), active) == Some(Entry(key, VStr(PathJoin(dir, tmpl))))
    ensures IsAbsolute(tmpl) ==> PathJoin(dir, tmpl) == tmpl
    ensures !IsAbsolute(tmpl) && tmpl != "" && dir != "" && dir != "." ==>
      PathJoin(dir, tmpl) == RTrim(dir, IsSlash) + "/" + tmpl
  {
    if !IsAbsolute(tmpl) && tmpl != "" && dir != "" && dir != "." {
      PathJoinRelative(dir, tmpl);
    }
  }

  /** prefer_audio marks the job for audio only when no override said
      anything about audio. */
  function PreferAudio(job: Dict, active: Dict): Dict {
    if Truthy(GetOr(active, "prefer_audio", VNone)) && !Has(job, AudioFlag)
    then Set(job, AudioFlag, VBool(true)) else job
  }

  /** The job smart_input_and_profiles builds for one URL. */
  function JobFor(active: Dict, ov: Dict): Option<Dict>
    requires ScalarSubtitles(active)
  {
    match ProfileJob(active)
    case None => None
    case Some(pj) =>
      match ApplyAll(pj, ov, Targets(active))
      case None => None
      case Some(j) => Some(PreferAudio(j, active))
  }

  /** The job exists unless the output path of the configuration or of an
      override cannot be built. */
  lemma JobForSome(active: Dict, ov: Dict)
    requires ScalarSubtitles(active)
    ensures JobFor(active, ov).Some? <==> ProfileOuttmpl(active).Some? && AllStored(ov, Targets(active))
  {
    ProfileJobGet(active, "format");
    if ProfileJob(active).Some? {
      ApplyAllSome(ProfileJob(active).value, ov, Targets(active));
    }
  }

  /** Under every key other than __audio_flag__ the job holds the last
      override that targets the key, or else the value derived from the
      configuration. */
  lemma JobForGet(active: Dict, ov: Dict, k: string)
    requires ScalarSubtitles(active) && k != AudioFlag && JobFor(active, ov).Some?
    ensures Get(JobFor(active, ov).value, k)
      == if LastTarget(ov, k, Targets(active)).Some? then LastTarget(ov, k, Targets(active))
         else ProfileJobValue(active, k)
  {
    ProfileJobGet(active, k);
    ApplyAllGet(ProfileJob(active).value, ov, Targets(active), k);
  }

  /** An audio override decides the audio flag, whatever prefer_audio says;
      without one the flag is set exactly when prefer_audio is truthy. */
  lemma AudioFlagPrecedence(active: Dict, ov: Dict)
    requires ScalarSubtitles(active) && JobFor(active, ov).Some?
    ensures Get(JobFor(active, ov).value, AudioFlag) ==
      if LastTarget(ov, AudioFlag, Targets(active)).Some? then LastTarget(ov, AudioFlag, Targets(active))
      else if Truthy(GetOr(active, "prefer_audio", VNone)) then Some(VBool(true))
      else None
  {
    ProfileJobGet(active, AudioFlag);
    ApplyAllGet(ProfileJob(active).value, ov, Targets(active), AudioFlag);
  }

  /** The assignments from the active configuration, one at a time. */
  method StartJob(active: Dict) returns (job: Option<Dict>)
    requires ScalarSubtitles(active)
    ensures job == ProfileJob(active)
  {
    var d := StartHead(active);
    var tmpl := GetOr(active, "output_template", VNone);
    if Truthy(tmpl) {
      var out := OutPath(OutputDir(active), tmpl);
      if out.None? {
        return None;
      }
      d := Set(d, "outtmpl", VStr(out.value));
    }
    ghost var out := ProfileOuttmpl(active).value;
    assert d == SetIf(ProfileHead(active), out != VNone, "outtmpl", out);
    d := AddLangs(d, active);
    d := Set(d, "noplaylist", VBool(!Truthy(GetOr(active, "playlist", VBool(false)))));
    ProfileJobSome(active, out);
    job := Some(d);
  }

  /** The format, proxy, rate and resume assignments. */
  method StartHead(active: Dict) returns (d: Dict)
    ensures d == ProfileHead(active)
  {
    d := [];
    var fmt := GetOr(active, "video_format", VNone);
    if Truthy(fmt) {
      d := Set(d, "format", fmt);
    }
    assert d == SetIf([], Truthy(fmt), "format", fmt);
    ghost var d1 := d;
    var proxy := GetOr(active, "proxy", VNone);
    if Truthy(proxy) {
      d := Set(d, "proxy", proxy);
    }
    assert d == SetIf(d1, Truthy(proxy), "proxy", proxy);
    ghost var d2 := d;
    var rate := GetOr(active, "rate_limit", VNone);
    if Truthy(rate) {
      d := Set(d, "ratelimit_str", rate);
    }
    assert d == SetIf(d2, Truthy(rate), "ratelimit_str", rate);
    ghost var d3 := d;
    var resume := GetOr(active, "resume_download", VNone);
    if resume != VNone {
      d := Set(d, "continuedl", VBool(Truthy(resume)));
    }
    assert d == SetIf(d3, resume != VNone, "continuedl", VBool(Truthy(resume)));
  }

  /** The three subtitle keys, assigned when the configuration names some
      language. */
  method AddLangs(d: Dict, active: Dict) returns (r: Dict)
    requires ScalarSubtitles(active)
    ensures r == WithLangs(d, ProfileLangs(active))
  {
    r := d;
    var subs := GetOr(active, "subtitles_languages", VNone);
    if Truthy(subs) {
      var langs := Langs(Str(subs));
      if langs != [] {
        r := Set(r, "writesubtitles", VBool(true));
        r := Set(r, "subtitleslangs", VList(StrList(langs)));
        r := Set(r, "subtitlesformat", VStr("srt"));
      }
    }
  }

  /** The URL's overrides written into the job one at a time; None where
      an outtmpl override raises. */
  method ApplyOverrides(pj: Dict, ov: Dict, active: Dict) returns (job: Option<Dict>)
    ensures job == ApplyAll(pj, ov, Targets(active))
  {
    var d := pj;
    var i := 0;
    while i < |ov|
      invariant 0 <= i <= |ov|
      invariant ApplyAll(pj, ov[..i], Targets(active)) == Some(d)
    {
      ApplyAllStep(pj, ov, Targets(active), i);
      var k, v := ov[i].key, ov[i].val;
      if k == "audio" {
        d := Set(d, AudioFlag, VBool(Truthy(v)));
      } else if k == "format" {
        d := Set(d, "format", v);
      } else if k == "outtmpl" {
        if !v.VStr? {
          ApplyAllNone(pj, ov, Targets(active), i + 1);
          return None;
        }
        if IsAbsolute(v.s) {
          d := Set(d, "outtmpl", v);
        } else {
          var p := OutPath(OutputDir(active), v);
          if p.None? {
            ApplyAllNone(pj, ov, Targets(active), i + 1);
            return None;
          }
          d := Set(d, "outtmpl", VStr(p.value));
        }
      } else if k == "proxy" {
        d := Set(d, "proxy", v);
      } else if k == "rate" {
        d := Set(d, "ratelimit_str", v);
      } else if k == "playlist" {
        d := Set(d, "noplaylist", VBool(!Truthy(v)));
      } else {
        d := Set(d, k, v);
      }
      i := i + 1;
    }
    assert ov[..|ov|] == ov;
    job := Some(d);
  }

  /** The body of the job loop for one URL: the configuration's keys, then
      the URL's overrides in order, then prefer_audio. */
  method BuildJob(active: Dict, ov: Dict) returns (job: Option<Dict>)
    requires ScalarSubtitles(active)
    ensures job == JobFor(active, ov)
  {
    job := StartJob(active);
    if job.None? {
      return;
    }
    job := ApplyOverrides(job.value, ov, active);
    if job.None? {
      return;
    }
    var d := job.value;
    if Truthy(GetOr(active, "prefer_audio", VNone)) && !Has(d, AudioFlag) {
      d := Set(d, AudioFlag, VBool(true));
    }
    job := Some(d);
  }

  /** The second part of each pair passed through f, pairs kept in
      order; None as soon as f gives None. */
  function MapSecond<T(!new), U>(xs: seq<(string, T)>, f: T --> Option<U>): Option<seq<(string, U)>>
    requires forall x :: f.requires(x)
    decreases |xs|
  {
    if xs == [] then Some([])
    else
      var last := xs[|xs| - 1];
      match MapSecond(xs[..|xs| - 1], f)
      case None => None
      case Some(ys) =>
        match f(last.1)
        case None => None
        case Some(y) => Some(ys + [(last.0, y)])
  }

  /** The mapping exists exactly when f gives a value for every pair, and
      then the i-th result keeps the i-th first part and holds f of the
      i-th second part. */
  lemma {:induction false} MapSecondSpec<T(!new), U>(xs: seq<(string, T)>, f: T --> Option<U>)
    requires forall x :: f.requires(x)
    ensures MapSecond(xs, f).Some? <==> forall i :: 0 <= i < |xs| ==> f(xs[i].1).Some?
    ensures MapSecond(xs, f).Some? ==> |MapSecond(xs, f).value| == |xs|
    ensures MapSecond(xs, f).Some? ==> forall i :: 0 <= i < |xs| ==>
      (MapSecond(xs, f).value[i].0 == xs[i].0 && Some(MapSecond(xs, f).value[i].1) == f(xs[i].1))
    decreases |xs|
  {
    if xs != [] {
      var init := xs[..|xs| - 1];
      MapSecondSpec(init, f);
      assert forall i :: 0 <= i < |init| ==> init[i] == xs[i];
    }
  }

  /** Once a prefix has no mapping, the whole list has none. */
  lemma {:induction false} MapSecondNone<T(!new), U>(xs: seq<(string, T)>, f: T --> Option<U>, n: nat)
    requires forall x :: f.requires(x)
    requires n <= |xs| && MapSecond(xs[..n], f).None?
    ensures MapSecond(xs, f).None?
    decreases |xs| - n
  {
    if n < |xs| {
      assert xs[..n + 1][..n] == xs[..n];
      MapSecondNone(xs, f, n + 1);
    } else {
      assert xs[..n] == xs;
    }
  }

  /** The jobs of the URLs, in order, each with its URL; None when building
      one of them raises. */
  function JobsFor(active: Dict, urls: seq<(string, Dict)>): Option<seq<(string, Dict)>>
    requires ScalarSubtitles(active)
  {
    MapSecond(urls, ov requires ScalarSubtitles(active) => JobFor(active, ov))
  }

  /** The jobs exist exactly when each URL's job can be built, and then
      the i-th job belongs to the i-th URL. */
  lemma JobsForSpec(active: Dict, urls: seq<(string, Dict)>)
    requires ScalarSubtitles(active)
    ensures JobsFor(active, urls).Some? <==> forall i :: 0 <= i < |urls| ==> JobFor(active, urls[i].1).Some?
    ensures JobsFor(active, urls).Some? ==> |JobsFor(active, urls).value| == |urls|
    ensures JobsFor(active, urls).Some? ==> forall i :: 0 <= i < |urls| ==>
      (JobsFor(active, urls).value[i].0 == urls[i].0
       && Some(JobsFor(active, urls).value[i].1) == JobFor(active, urls[i].1))
  {
    MapSecondSpec(urls, ov requires ScalarSubtitles(active) => JobFor(active, ov));
  }

  lemma JobsForStep(active: Dict, urls: seq<(string, Dict)>, i: nat)
    requires ScalarSubtitles(active) && i < |urls|
    ensures JobsFor(active, urls[..i + 1]) ==
      match JobsFor(active, urls[..i])
      case None => None
      case Some(js) =>
        match JobFor(active, urls[i].1)
        case None => None
        case Some(j) => Some(js + [(urls[i].0, j)])
  {
    assert urls[..i + 1][..i] == urls[..i];
  }

  /** The job loop of smart_input_and_profiles; it stops at the first job
      that raises. */
  method BuildJobs(active: Dict, urls: seq<(string, Dict)>) returns (jobs: Option<seq<(string, Dict)>>)
    requires ScalarSubtitles(active)
    ensures jobs == JobsFor(active, urls)
  {
    var acc: seq<(string, Dict)> := [];
    var i := 0;
    while i < |urls|
      invariant 0 <= i <= |urls|
      invariant JobsFor(active, urls[..i]) == Some(acc)
    {
      JobsForStep(active, urls, i);
      var job := BuildJob(active, urls[i].1);
      if job.None? {
        MapSecondNone(urls, ov requires ScalarSubtitles(active) => JobFor(active, ov), i + 1);
        return None;
      }
      acc := acc + [(urls[i].0, job.value)];
      i := i + 1;
    }
    assert urls[..|urls|] == urls;
    jobs := Some(acc);
  }

  // -------------------------------------------------------------------
  // build_ydl_opts_from_job (draxon.py:532-567)

  /** The job's outtmpl when truthy, else the base's template joined under
      its output_dir; None where that path raises (a template that is
      missing or not text). */
  function YdlOuttmpl(job: Dict, base: Dict): Option<Value> {
    var jo := GetOr(job, "outtmpl", VNone);
    if Truthy(jo) then Some(jo)
    else match OutPath(OutputDir(base), GetOr(base, "output_template", VNone))
      case None => None
      case Some(p) => Some(VStr(p))
  }

  /** The parsed rate: the job's rate text when truthy, else the base's. */
  function RateLimitOf(job: Dict, base: Dict): Option<int> {
    var js := GetOr(job, "ratelimit_str", VNone);
    ParseRate(if Truthy(js) then js else GetOr(base, "rate_limit", VNone))
  }

  /** The subtitle languages and format written, if any: the job's own
      list when truthy, else the base's languages when that list is not
      empty; nothing unless the job asks for subtitles or the base names
      languages. */
  function SubtitlesOf(job: Dict, base: Dict): Option<(Value, Value)>
    requires ScalarSubtitles(base)
  {
    var bs := GetOr(base, "subtitles_languages", VStr(""));
    if !Truthy(GetOr(job, "writesubtitles", VNone)) && !Truthy(bs) then None
    else
      var jl := GetOr(job, "subtitleslangs", VNone);
      if Truthy(jl) then Some((jl, GetOr(job, "subtitlesformat", VStr("srt"))))
      else
        var langs := Langs(Str(bs));
        if langs != [] then Some((VList(StrList(langs)), VStr("srt"))) else None
  }

  /** The FFmpegExtractAudio step that converts to 192 kbit/s mp3. */
  function ExtractAudio(): Value {
    VList([VDict([Entry("key", VStr("FFmpegExtractAudio")),
                  Entry("preferredcodec", VStr("mp3")),
                  Entry("preferredquality", VStr("192"))])])
  }

  function DefaultFormat(job: Dict, base: Dict): Value {
    var jf := GetOr(job, "format", VNone);
    if Truthy(jf) then jf else GetOr(base, "video_format", VStr("best"))
  }

  function NoPlaylist(job: Dict, base: Dict): Value {
    GetOr(job, "noplaylist", VBool(!Truthy(GetOr(base, "playlist", VBool(false)))))
  }

  function ContinueDl(job: Dict, base: Dict): Value {
    VBool(Truthy(GetOr(job, "continuedl", GetOr(base, "resume_download", VBool(true)))))
  }

  /** The proxy written, if any: the job's when truthy, else the base's
      when truthy. */
  function ProxyOf(job: Dict, base: Dict): Option<Value> {
    var jp := GetOr(job, "proxy", VNone);
    var bp := GetOr(base, "proxy", VNone);
    if Truthy(jp) then Some(jp) else if Truthy(bp) then Some(bp) else None
  }

  /** The proxy key, when a proxy is written. */
  function WithProxy(d: Dict, proxy: Option<Value>): (r: Dict)
    ensures forall j :: Get(r, j) == if j == "proxy" && proxy.Some? then proxy else Get(d, j)
  {
    if proxy.Some? then Set(d, "proxy", proxy.value) else d
  }

  /** The ratelimit key, for a parsed rate other than zero. */
  function WithRate(d: Dict, rl: Option<int>): (r: Dict)
    ensures forall j :: Get(r, j) == (if j == "ratelimit" && rl.Some? && rl.value != 0
                                      then Some(VInt(rl.value)) else Get(d, j))
  {
    if rl.Some? && rl.value != 0 then Set(d, "ratelimit", VInt(rl.value)) else d
  }

  /** The subtitle keys, when subtitles are written. */
  function WithSubtitles(d: Dict, subs: Option<(Value, Value)>): (r: Dict)
    ensures forall j ::
      Get(r, j) ==
        (if subs.None? then Get(d, j)
         else if j == "writesubtitles" then Some(VBool(true))
         else if j == "subtitleslangs" then Some(subs.value.0)
         else if j == "subtitlesformat" then Some(subs.value.1)
         else Get(d, j))
  {
    if subs.None? then d
    else Set(Set(Set(d, "writesubtitles", VBool(true)), "subtitleslangs", subs.value.0),
             "subtitlesformat", subs.value.1)
  }

  /** The audio flag forces the audio format and the mp3 extraction step. */
  function WithAudio(d: Dict, audio: bool): (r: Dict)
    ensures forall j ::
      Get(r, j) ==
        (if audio && j == "format" then Some(VStr("bestaudio/best"))
         else if audio && j == "postprocessors" then Some(ExtractAudio())
         else Get(d, j))
  {
    if audio then Set(Set(d, "format", VStr("bestaudio/best")), "postprocessors", ExtractAudio()) else d
  }

  /** The four keys every options dict starts with, in a fresh dict. */
  function Head(out: Value, format: Value, noplaylist: Value, continuedl: Value): (r: Dict)
    ensures forall j ::
      Get(r, j) ==
        (if j == "outtmpl" then Some(out)
         else if j == "format" then Some(format)
         else if j == "noplaylist" then Some(noplaylist)
         else if j == "continuedl" then Some(continuedl)
         else None)
  {
    var d1 := Set([], "outtmpl", out);
    var d2 := Set(d1, "format", format);
    var d3 := Set(d2, "noplaylist", noplaylist);
    Set(d3, "continuedl", continuedl)
  }

  /** The chosen values of one options dict. */
  datatype Choices = Choices(out: Value, format: Value, noplaylist: Value, continuedl: Value,
                             proxy: Option<Value>, rate: Option<int>,
                             subs: Option<(Value, Value)>, audio: bool)

  /** The options dict the choices make, key by key in the order
      build_ydl_opts_from_job writes them. */
  function OptsOf(c: Choices): Dict {
    var d5 := WithProxy(Head(c.out, c.format, c.noplaylist, c.continuedl), c.proxy);
    WithAudio(WithSubtitles(WithRate(d5, c.rate), c.subs), c.audio)
  }

  /** What the options dict holds under each key: the audio flag forces
      format "bestaudio/best" and the mp3 extraction step whatever format
      was chosen; a proxy only when one is chosen; ratelimit only for a
      parsed rate other than zero; the three subtitle keys exactly when
      subtitles are written; nothing under any other key. */
  function OptOf(c: Choices, k: string): Option<Value> {
    if k == "outtmpl" then (Some(c.out))
    else if k == "format" then (Some(if c.audio then VStr("bestaudio/best") else c.format))
    else if k == "noplaylist" then (Some(c.noplaylist))
    else if k == "continuedl" then (Some(c.continuedl))
    else if k == "proxy" then (c.proxy)
    else if k == "ratelimit" then (if c.rate.Some? && c.rate.value != 0 then Some(VInt(c.rate.value)) else None)
    else if k == "writesubtitles" then (if c.subs.Some? then Some(VBool(true)) else None)
    else if k == "subtitleslangs" then (if c.subs.Some? then Some(c.subs.value.0) else None)
    else if k == "subtitlesformat" then (if c.subs.Some? then Some(c.subs.value.1) else None)
    else if k == "postprocessors" then (if c.audio then Some(ExtractAudio()) else None)
    else None
  }

  lemma OptsOfOuttmpl(c: Choices, k: string)
    requires k == "outtmpl"
    ensures Get(OptsOf(c), k) == (Some(c.out))
  {
    var h := Head(c.out, c.format, c.noplaylist, c.continuedl);
    var d5 := WithProxy(h, c.proxy);
    var d6 := WithRate(d5, c.rate);
    var d7 := WithSubtitles(d6, c.subs);
    assert Get(OptsOf(c), k) == Get(d7, k) == Get(d6, k) == Get(d5, k) == Get(h, k);
  }

  lemma OptsOfFormat(c: Choices, k: string)
    requires k == "format"
    ensures Get(OptsOf(c), k) == (Some(if c.audio then VStr("bestaudio/best") else c.format))
  {
    var h := Head(c.out, c.format, c.noplaylist, c.continuedl);
    var d5 := WithProxy(h, c.proxy);
    var d6 := WithRate(d5, c.rate);
    var d7 := WithSubtitles(d6, c.subs);
    assert !c.audio ==> Get(OptsOf(c), k) == Get(d7, k) == Get(d6, k) == Get(d5, k) == Get(h, k);
  }

  lemma OptsOfNoplaylist(c: Choices, k: string)
    requires k == "noplaylist"
    ensures Get(OptsOf(c), k) == (Some(c.noplaylist))
  {
    assert k[0] == 'n';
    var h := Head(c.out, c.format, c.noplaylist, c.continuedl);
    assert Get(h, k) == Some(c.noplaylist);
    var d5 := WithProxy(h, c.proxy);
    assert Get(d5, k) == Get(h, k);
  }

  lemma OptsOfContinuedl(c: Choices, k: string)
    requires k == "continuedl"
    ensures Get(OptsOf(c), k) == (Some(c.continuedl))
  {
    var h := Head(c.out, c.format, c.noplaylist, c.continuedl);
    var d5 := WithProxy(h, c.proxy);
    var d6 := WithRate(d5, c.rate);
    var d7 := WithSubtitles(d6, c.subs);
    assert Get(OptsOf(c), k) == Get(d7, k) == Get(d6, k) == Get(d5, k) == Get(h, k);
  }

  lemma OptsOfProxy(c: Choices, k: string)
    requires k == "proxy"
    ensures Get(OptsOf(c), k) == (c.proxy)
  {
    var h := Head(c.out, c.format, c.noplaylist, c.continuedl);
    var d5 := WithProxy(h, c.proxy);
    var d6 := WithRate(d5, c.rate);
    var d7 := WithSubtitles(d6, c.subs);
    assert Get(OptsOf(c), k) == Get(d7, k) == Get(d6, k) == Get(d5, k);
  }

  lemma OptsOfRatelimit(c: Choices, k: string)
    requires k == "ratelimit"
    ensures Get(OptsOf(c), k) == (if c.rate.Some? && c.rate.value != 0 then Some(VInt(c.rate.value)) else None)
  {
    var h := Head(c.out, c.format, c.noplaylist, c.continuedl);
    var d5 := WithProxy(h, c.proxy);
    var d6 := WithRate(d5, c.rate);
    var d7 := WithSubtitles(d6, c.subs);
    assert Get(OptsOf(c), k) == Get(d7, k) == Get(d6, k);
  }

  lemma OptsOfWritesubtitles(c: Choices, k: string)
    requires k == "writesubtitles"
    ensures Get(OptsOf(c), k) == (if c.subs.Some? then Some(VBool(true)) else None)
  {
    var h := Head(c.out, c.format, c.noplaylist, c.continuedl);
    var d5 := WithProxy(h, c.proxy);
    var d6 := WithRate(d5, c.rate);
    var d7 := WithSubtitles(d6, c.subs);
    assert Get(OptsOf(c), k) == Get(d7, k);
  }

  lemma OptsOfSubtitleslangs(c: Choices, k: string)
    requires k == "subtitleslangs"
    ensures Get(OptsOf(c), k) == (if c.subs.Some? then Some(c.subs.value.0) else None)
  {
    var h := Head(c.out, c.format, c.noplaylist, c.continuedl);
    var d5 := WithProxy(h, c.proxy);
    var d6 := WithRate(d5, c.rate);
    var d7 := WithSubtitles(d6, c.subs);
    assert Get(OptsOf(c), k) == Get(d7, k);
  }

  lemma OptsOfSubtitlesformat(c: Choices, k: string)
    requires k == "subtitlesformat"
    ensures Get(OptsOf(c), k) == (if c.subs.Some? then Some(c.subs.value.1) else None)
  {
    var h := Head(c.out, c.format, c.noplaylist, c.continuedl);
    var d5 := WithProxy(h, c.proxy);
    var d6 := WithRate(d5, c.rate);
    var d7 := WithSubtitles(d6, c.subs);
    assert Get(OptsOf(c), k) == Get(d7, k);
  }

  lemma OptsOfPostprocessors(c: Choices, k: string)
    requires k == "postprocessors"
    ensures Get(OptsOf(c), k) == (if c.audio then Some(ExtractAudio()) else None)
  {
  }

  /** The ten keys above are all the options dict holds. */
  predicate OptKey(k: string) {
    k == "outtmpl" || k == "format" || k == "noplaylist" || k == "continuedl" || k == "proxy"
    || k == "ratelimit" || k == "writesubtitles" || k == "subtitleslangs" || k == "subtitlesformat"
    || k == "postprocessors"
  }

  /** No key other than the ten is written. */
  lemma OptsOfOthers(c: Choices, k: string)
    requires !OptKey(k)
    ensures Get(OptsOf(c), k) == None
  {
  }

  /** The options dict written key by key holds what OptOf says. */
  lemma OptsOfGet(c: Choices, k: string)
    ensures Get(OptsOf(c), k) == OptOf(c, k)
  {
    if k == "outtmpl" {
      OptsOfOuttmpl(c, k);
    } else if k == "format" {
      OptsOfFormat(c, k);
    } else if k == "noplaylist" {
      OptsOfNoplaylist(c, k);
    } else if k == "continuedl" {
      OptsOfContinuedl(c, k);
    } else if k == "proxy" {
      OptsOfProxy(c, k);
    } else if k == "ratelimit" {
      OptsOfRatelimit(c, k);
    } else if k == "writesubtitles" {
      OptsOfWritesubtitles(c, k);
    } else if k == "subtitleslangs" {
      OptsOfSubtitleslangs(c, k);
    } else if k == "subtitlesformat" {
      OptsOfSubtitlesformat(c, k);
    } else if k == "postprocessors" {
      OptsOfPostprocessors(c, k);
    } else {
      OptsOfOthers(c, k);
    }
  }

  /** The job's audio flag. */
  predicate AudioOf(job: Dict) {
    Truthy(GetOr(job, AudioFlag, VNone))
  }

  /** What build_ydl_opts_from_job chooses for a job: a job's format,
      proxy and rate text beat the base's. */
  function ChoicesOf(out: Value, job: Dict, base: Dict): Choices
    requires ScalarSubtitles(base)
  {
    Choices(out, DefaultFormat(job, base), NoPlaylist(job, base), ContinueDl(job, base),
            ProxyOf(job, base), RateLimitOf(job, base), SubtitlesOf(job, base), AudioOf(job))
  }

  /** build_ydl_opts_from_job as a value; None where the output path
      raises. */
  function YdlOpts(job: Dict, base: Dict): Option<Dict>
    requires ScalarSubtitles(base)
  {
    match YdlOuttmpl(job, base)
    case None => None
    case Some(out) => Some(OptsOf(ChoicesOf(out, job, base)))
  }

  /** The options exist unless the output path raises. */
  lemma YdlOptsSome(job: Dict, base: Dict)
    requires ScalarSubtitles(base)
    ensures YdlOpts(job, base).Some? <==> YdlOuttmpl(job, base).Some?
  {
  }

  /** The format written: "bestaudio/best" for an audio job, else the
      job's truthy format, else the base's video_format. */
  lemma YdlOptsFormat(job: Dict, base: Dict)
    requires ScalarSubtitles(base) && YdlOpts(job, base).Some?
    ensures Get(YdlOpts(job, base).value, "format") ==
      Some(if AudioOf(job) then VStr("bestaudio/best") else DefaultFormat(job, base))
    ensures Get(YdlOpts(job, base).value, "postprocessors") ==
      if AudioOf(job) then Some(ExtractAudio()) else None
  {
    var c := ChoicesOf(YdlOuttmpl(job, base).value, job, base);
    OptsOfFormat(c, "format");
    OptsOfPostprocessors(c, "postprocessors");
  }

  /** When subtitles come from the base configuration, the list written
      holds its non-empty, stripped, comma-free languages and is not empty. */
  lemma BaseSubtitles(job: Dict, base: Dict)
    requires ScalarSubtitles(base) && SubtitlesOf(job, base).Some?
    requires !Truthy(GetOr(job, "subtitleslangs", VNone))
    ensures var langs := Langs(Str(GetOr(base, "subtitles_languages", VStr(""))));
      langs != [] && SubtitlesOf(job, base) == Some((VList(StrList(langs)), VStr("srt")))
      && forall i :: 0 <= i < |langs| ==> LangName(langs[i])
  {
    LangsShape(Str(GetOr(base, "subtitles_languages", VStr(""))));
  }

  // -------------------------------------------------------------------
  // The final jobs (draxon.py:614-619)

  /** --audio marks a job for audio unless it already says something about
      audio. */
  function CliAudio(job: Dict, audio: bool): (r: Dict)
    ensures forall j :: j != AudioFlag ==> Get(r, j) == Get(job, j)
  {
    if audio && !Has(job, AudioFlag) then Set(job, AudioFlag, VBool(true)) else job
  }

  /** The engine options main builds for one job. */
  function FinalJob(job: Dict, cfg: Dict, audio: bool): Option<Dict>
    requires ScalarSubtitles(cfg)
  {
    YdlOpts(CliAudio(job, audio), cfg)
  }

  /** With --audio every job extracts audio unless its own audio override
      turned it off; a job whose audio override turned it on extracts audio
      in any case. */
  lemma CliAudioExtracts(job: Dict, cfg: Dict, audio: bool)
    requires ScalarSubtitles(cfg) && FinalJob(job, cfg, audio).Some?
    requires (audio && Get(job, AudioFlag).None?) || Get(job, AudioFlag) == Some(VBool(true))
    ensures Get(FinalJob(job, cfg, audio).value, "format") == Some(VStr("bestaudio/best"))
    ensures Get(FinalJob(job, cfg, audio).value, "postprocessors") == Some(ExtractAudio())
  {
    var j := CliAudio(job, audio);
    assert Get(j, AudioFlag) == Some(VBool(true));
    YdlOptsFormat(j, cfg);
  }

  /** The engine options of every job, in order, each with its URL; None
      when one of them raises. */
  function FinalsFor(jobs: seq<(string, Dict)>, cfg: Dict, audio: bool): Option<seq<(string, Dict)>>
    requires ScalarSubtitles(cfg)
  {
    MapSecond(jobs, job requires ScalarSubtitles(cfg) => FinalJob(job, cfg, audio))
  }

  /** The options exist exactly when each job's options can be built, and
      then the i-th options belong to the i-th URL. */
  lemma FinalsForSpec(jobs: seq<(string, Dict)>, cfg: Dict, audio: bool)
    requires ScalarSubtitles(cfg)
    ensures FinalsFor(jobs, cfg, audio).Some? <==> forall i :: 0 <= i < |jobs| ==> FinalJob(jobs[i].1, cfg, audio).Some?
    ensures FinalsFor(jobs, cfg, audio).Some? ==> |FinalsFor(jobs, cfg, audio).value| == |jobs|
    ensures FinalsFor(jobs, cfg, audio).Some? ==> forall i :: 0 <= i < |jobs| ==>
      (FinalsFor(jobs, cfg, audio).value[i].0 == jobs[i].0
       && Some(FinalsFor(jobs, cfg, audio).value[i].1) == FinalJob(jobs[i].1, cfg, audio))
  {
    MapSecondSpec(jobs, job requires ScalarSubtitles(cfg) => FinalJob(job, cfg, audio));
  }

  lemma FinalsForStep(jobs: seq<(string, Dict)>, cfg: Dict, audio: bool, i: nat)
    requires ScalarSubtitles(cfg) && i < |jobs|
    ensures FinalsFor(jobs[..i + 1], cfg, audio) ==
      match FinalsFor(jobs[..i], cfg, audio)
      case None => None
      case Some(fs) =>
        match FinalJob(jobs[i].1, cfg, audio)
        case None => None
        case Some(f) => Some(fs + [(jobs[i].0, f)])
  {
    assert jobs[..i + 1][..i] == jobs[..i];
  }

  /** main's loop over the jobs: the --audio mark, then the engine options,
      each job keeping its URL and its place. */
  method FinalJobs(jobs: seq<(string, Dict)>, cfg: Dict, audio: bool) returns (finals: Option<seq<(string, Dict)>>)
    requires ScalarSubtitles(cfg)
    ensures finals == FinalsFor(jobs, cfg, audio)
  {
    var acc: seq<(string, Dict)> := [];
    var i := 0;
    while i < |jobs|
      invariant 0 <= i <= |jobs|
      invariant FinalsFor(jobs[..i], cfg, audio) == Some(acc)
    {
      FinalsForStep(jobs, cfg, audio, i);
      var job := jobs[i].1;
      if audio && !Has(job, AudioFlag) {
        job := Set(job, AudioFlag, VBool(true));
      }
      assert job == CliAudio(jobs[i].1, audio);
      var opts := YdlOpts(job, cfg);
      if opts.None? {
        MapSecondNone(jobs, job requires ScalarSubtitles(cfg) => FinalJob(job, cfg, audio), i + 1);
        return None;
      }
      acc := acc + [(jobs[i].0, opts.value)];
      i := i + 1;
    }
    assert jobs[..|jobs|] == jobs;
    finals := Some(acc);
  }

  // -------------------------------------------------------------------
  // Command-line flags and the jobs

  /** The engine options of one URL as main builds them: the job comes from
      the active configuration before the flags are written into it, and
      the flags only reach the base configuration. */
  function FinalOptsAsWritten(active: Dict, args: CliArgs, ov: Dict): Option<Dict>
    requires ScalarSubtitles(active)
  {
    var cfg := ApplyCli(active, args);
    CliKeepsScalarSubtitles(active, args);
    match JobFor(active, ov)
    case None => None
    case Some(job) => FinalJob(job, cfg, args.audio)
  }

  /** The engine options of one URL with the flags written into the
      configuration before the job is built, as their help text ("override
      video format") promises. */
  function FinalOpts(active: Dict, args: CliArgs, ov: Dict): Option<Dict>
    requires ScalarSubtitles(active)
  {
    var cfg := ApplyCli(active, args);
    CliKeepsScalarSubtitles(active, args);
    match JobFor(cfg, ov)
    case None => None
    case Some(job) => FinalJob(job, cfg, args.audio)
  }

  lemma CliKeepsScalarSubtitles(active: Dict, args: CliArgs)
    requires ScalarSubtitles(active)
    ensures ScalarSubtitles(ApplyCli(active, args))
  {
    ApplyCliSpec(active, args, "subtitles_languages");
  }

  /** A job with no format or audio override, built from a configuration
      whose video_format is truthy and whose prefer_audio is not, reaches
      the engine with that video_format, whatever base configuration the
      options are built against. */
  lemma FinalFormat(cfg: Dict, ov: Dict, base: Dict)
    requires ScalarSubtitles(cfg) && ScalarSubtitles(base) && JobFor(cfg, ov).Some?
    requires FinalJob(JobFor(cfg, ov).value, base, false).Some?
    requires LastTarget(ov, "format", Targets(cfg)).None?
    requires LastTarget(ov, AudioFlag, Targets(cfg)).None?
    requires !Truthy(GetOr(cfg, "prefer_audio", VNone)) && Truthy(GetOr(cfg, "video_format", VNone))
    ensures Get(FinalJob(JobFor(cfg, ov).value, base, false).value, "format") == Some(GetOr(cfg, "video_format", VNone))
  {
    var job := JobFor(cfg, ov).value;
    JobForGet(cfg, ov, "format");
    assert Get(job, "format") == ProfileJobValue(cfg, "format");
    assert ProfileJobValue(cfg, "format") == HeadValue(cfg, "format");
    AudioFlagPrecedence(cfg, ov);
    assert CliAudio(job, false) == job;
    YdlOptsFormat(job, base);
  }

  /** Where main ignores --format: with a truthy video_format in the active
      configuration (DEFAULT_CONFIG has "best"), no per-URL format or audio
      override, and no audio requested, the engine gets the configuration's
      format and not the one given on the command line. */
  lemma CliFormatIgnored(active: Dict, args: CliArgs, ov: Dict, f: string)
    requires ScalarSubtitles(active) && FinalOptsAsWritten(active, args, ov).Some?
    requires args.videoFormat == Some(f) && f != "" && !args.audio
    requires Truthy(GetOr(active, "video_format", VNone)) && Get(active, "video_format") != Some(VStr(f))
    requires LastTarget(ov, "format", Targets(active)).None?
    requires LastTarget(ov, AudioFlag, Targets(active)).None?
    requires !Truthy(GetOr(active, "prefer_audio", VNone))
    ensures Get(FinalOptsAsWritten(active, args, ov).value, "format") == Get(active, "video_format")
    ensures Get(FinalOptsAsWritten(active, args, ov).value, "format") != Some(VStr(f))
  {
    CliKeepsScalarSubtitles(active, args);
    FinalFormat(active, ov, ApplyCli(active, args));
  }

  /** With the flags applied first, --format reaches the engine unless a
      per-URL format or audio override, --audio or prefer_audio asks for
      something else. */
  lemma CliFormatHonoured(active: Dict, args: CliArgs, ov: Dict, f: string)
    requires ScalarSubtitles(active) && FinalOpts(active, args, ov).Some?
    requires args.videoFormat == Some(f) && f != "" && !args.audio
    requires LastTarget(ov, "format", Targets(ApplyCli(active, args))).None?
    requires LastTarget(ov, AudioFlag, Targets(ApplyCli(active, args))).None?
    requires !Truthy(GetOr(active, "prefer_audio", VNone))
    ensures Get(FinalOpts(active, args, ov).value, "format") == Some(VStr(f))
  {
    var cfg := ApplyCli(active, args);
    CliFormatConfig(active, args, f);
    FinalOptsOf(active, args, ov);
    FinalFormat(cfg, ov, cfg);
  }

  /** The flags leave the subtitle languages readable, put --format in
      video_format and keep prefer_audio when --audio is not given. */
  lemma CliFormatConfig(active: Dict, args: CliArgs, f: string)
    requires ScalarSubtitles(active)
    requires args.videoFormat == Some(f) && f != "" && !args.audio
    requires !Truthy(GetOr(active, "prefer_audio", VNone))
    ensures var cfg := ApplyCli(active, args);
      ScalarSubtitles(cfg) && GetOr(cfg, "video_format", VNone) == VStr(f)
      && Truthy(GetOr(cfg, "video_format", VNone)) && !Truthy(GetOr(cfg, "prefer_audio", VNone))
  {
    CliKeepsScalarSubtitles(active, args);
    CliVideoFormat(active, args, f);
    CliKeepsPreferAudio(active, args);
  }

  lemma CliVideoFormat(active: Dict, args: CliArgs, f: string)
    requires args.videoFormat == Some(f) && f != ""
    ensures GetOr(ApplyCli(active, args), "video_format", VNone) == VStr(f)
  {
    assert FlagFor(args, "video_format") == Some(f);
    ApplyCliSpec(active, args, "video_format");
  }

  lemma CliKeepsPreferAudio(active: Dict, args: CliArgs)
    requires !args.audio
    ensures Get(ApplyCli(active, args), "prefer_audio") == Get(active, "prefer_audio")
  {
    assert FlagFor(args, "prefer_audio") == None;
    ApplyCliSpec(active, args, "prefer_audio");
  }

  lemma FinalOptsOf(active: Dict, args: CliArgs, ov: Dict)
    requires ScalarSubtitles(active)
    ensures ScalarSubtitles(ApplyCli(active, args))
    ensures FinalOpts(active, args, ov)
      == if JobFor(ApplyCli(active, args), ov).Some?
         then FinalJob(JobFor(ApplyCli(active, args), ov).value, ApplyCli(active, args), args.audio)
         else None
  {
    CliKeepsScalarSubtitles(active, args);
  }
}
