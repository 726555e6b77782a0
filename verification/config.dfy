/** The configuration layers of draxon.py: DEFAULT_CONFIG, load_config's
    merge of the config file over it, the active profile merged on top
    (smart_input_and_profiles) and the command-line flags that main writes
    into the active configuration afterwards. The working directory is a
    parameter; the file itself is given as what reading it produced. */
module Config {
  import opened Common
  import opened PyValue

  // -------------------------------------------------------------------
  // Paths

  predicate IsAbsolute(p: string) {
    p != [] && p[0] == '/'
  }

  predicate IsSlash(c: char) {
    c == '/'
  }

  /** str(Path(dir) / name) for a plain directory text and file name: an
      absolute name replaces the directory, an empty or "." directory adds
      nothing, and otherwise one '/' separates the two; an empty name adds
      nothing to the directory. */
  function PathJoin(dir: string, name: string): string {
    if IsAbsolute(name) then name
    else if dir == "" || dir == "." then (if name == "" then "." else name)
    else
      var base := RTrim(dir, IsSlash);
      if name == "" then (if base == "" then "/" else base) else base + "/" + name
  }

  /** A relative name ends the joined path, after a '/' that follows the
      directory with its trailing slashes dropped. */
  lemma PathJoinRelative(dir: string, name: string)
    requires !IsAbsolute(name) && name != "" && dir != "" && dir != "."
    ensures var base := RTrim(dir, IsSlash);
      PathJoin(dir, name) == base + "/" + name
      && StartsWith(PathJoin(dir, name), base) && EndsWith(PathJoin(dir, name), "/" + name)
  {
    var base := RTrim(dir, IsSlash);
    var r := base + "/" + name;
    assert r[..|base|] == base;
    assert r[|r| - |"/" + name|..] == "/" + name;
  }

  /** An absolute name is kept as it is, whatever the directory. */
  lemma PathJoinAbsolute(dir: string, name: string)
    requires IsAbsolute(name)
    ensures PathJoin(dir, name) == name
  {
  }

  // -------------------------------------------------------------------
  // DEFAULT_CONFIG and load_config

  /** {"default": {}}: the profile table used when the file has none. */
  function DefaultProfiles(): Value {
    VDict([Entry("default", VDict([]))])
  }

  /** DEFAULT_CONFIG, for the working directory cwd, assigned key by key. */
  function DefaultConfig(cwd: string): Dict {
    Update([], DefaultEntries(cwd))
  }

  /** The entries of DEFAULT_CONFIG in their order. */
  function DefaultEntries(cwd: string): seq<Entry> {
    [ Entry("output_dir", VStr(cwd)),
      Entry("output_template", VStr("%(title)s.%(ext)s")),
      Entry("video_format", VStr("best")),
      Entry("subtitles_languages", VStr("en,ru")),
      Entry("proxy", VStr("")),
      Entry("rate_limit", VStr("")),
      Entry("resume_download", VBool(true)),
      Entry("verbose", VBool(false)),
      Entry("log_to_file", VBool(false)),
      Entry("log_file", VStr(PathJoin(cwd, "draxon.log"))),
      Entry("parallel_download", VBool(false)),
      Entry("max_workers", VInt(2)),
      Entry("profiles", DefaultProfiles()) ]
  }

  /** What reading ~/.draxon.json gave: no file, a file that does not parse
      as JSON (or cannot be read), or the parsed JSON value. */
  datatype ConfigFile = Missing | Unreadable | Parsed(json: Value)

  predicate ProfilesOk(d: Dict) {
    Get(d, "profiles").Some? && Get(d, "profiles").value.VDict?
  }

  /** load_config: the file's top-level object merged over the defaults,
      with the profile table reset to {"default": {}} when it is missing or
      not an object; the defaults alone when there is no file, it does not
      parse, or it is not an object (the ** merge raises and the error is
      caught). */
  function LoadConfig(file: ConfigFile, cwd: string): Dict {
    LoadOver(file, DefaultConfig(cwd))
  }

  /** load_config over the given defaults. */
  function LoadOver(file: ConfigFile, defaults: Dict): Dict {
    match file
    case Parsed(VDict(es)) =>
      var merged := Update(defaults, es);
      if ProfilesOk(merged) then merged else Set(merged, "profiles", DefaultProfiles())
    case _ => defaults
  }

  lemma LoadOverSpec(file: ConfigFile, defaults: Dict)
    requires ProfilesOk(defaults)
    ensures ProfilesOk(LoadOver(file, defaults))
    ensures forall k :: k != "profiles" ==>
      Get(LoadOver(file, defaults), k) ==
        if file.Parsed? && file.json.VDict? && Get(file.json.entries, k).Some?
        then Get(file.json.entries, k) else Get(defaults, k)
  {
  }

  /** After loading, every key holds the file's value when the file sets it
      and the default otherwise, except that a profile table that is not an
      object becomes {"default": {}}; the profile table is always an object. */
  lemma LoadConfigSpec(file: ConfigFile, cwd: string)
    ensures ProfilesOk(LoadConfig(file, cwd))
    ensures forall k :: k != "profiles" ==>
      Get(LoadConfig(file, cwd), k) ==
        if file.Parsed? && file.json.VDict? && Get(file.json.entries, k).Some?
        then Get(file.json.entries, k) else Get(DefaultConfig(cwd), k)
  {
    DefaultProfilesAt(cwd);
    LoadOverSpec(file, DefaultConfig(cwd));
  }

  lemma DefaultProfilesAt(cwd: string)
    ensures Get(DefaultConfig(cwd), "profiles") == Some(DefaultProfiles())
  {
    assert Get(DefaultEntries(cwd), "profiles") == Some(DefaultProfiles());
  }

  /** A file that cannot be used leaves exactly the defaults. */
  lemma LoadConfigFallback(file: ConfigFile, cwd: string)
    requires !(file.Parsed? && file.json.VDict?)
    ensures LoadConfig(file, cwd) == DefaultConfig(cwd)
  {
  }

  // -------------------------------------------------------------------
  // The active configuration

  /** profiles.get(profile_name, {}) as the entries active_cfg.update
      receives; None where that update raises (a profile table or a profile
      that is not an object). */
  function ProfileEntries(cfg: Dict, name: string): Option<seq<Entry>> {
    match GetOr(cfg, "profiles", DefaultProfiles())
    case VDict(ps) =>
      (match Get(ps, name)
       case None => Some([])
       case Some(VDict(es)) => Some(es)
       case Some(_) => None)
    case _ => None
  }

  /** active_cfg = {**DEFAULT_CONFIG, **cfg}; active_cfg.update(profile). */
  function ActiveConfig(cfg: Dict, name: string, cwd: string): Option<Dict> {
    ActiveOver(cfg, name, DefaultConfig(cwd))
  }

  function ActiveOver(cfg: Dict, name: string, defaults: Dict): Option<Dict> {
    match ProfileEntries(cfg, name)
    case None => None
    case Some(profile) => Some(Update(Update(defaults, cfg), profile))
  }

  /** A profile key beats the configuration, which beats DEFAULT_CONFIG. */
  lemma ActivePrecedence(cfg: Dict, name: string, cwd: string, k: string)
    requires ActiveConfig(cfg, name, cwd).Some?
    ensures var profile := ProfileEntries(cfg, name).value;
      Get(ActiveConfig(cfg, name, cwd).value, k) ==
        if Get(profile, k).Some? then Get(profile, k)
        else if Get(cfg, k).Some? then Get(cfg, k)
        else Get(DefaultConfig(cwd), k)
  {
  }

  /** With a profile table that is an object, only a profile that is not an
      object stops the merge, and an unknown profile name merges nothing. */
  lemma ActiveOverProfiles(cfg: Dict, name: string, defaults: Dict)
    requires ProfilesOk(cfg)
    ensures var ps := Get(cfg, "profiles").value.entries;
      ActiveOver(cfg, name, defaults).Some? <==> (Get(ps, name).None? || Get(ps, name).value.VDict?)
    ensures var ps := Get(cfg, "profiles").value.entries;
      Get(ps, name).None? ==> ActiveOver(cfg, name, defaults) == Some(Update(defaults, cfg))
  {
    var ps := Get(cfg, "profiles").value.entries;
    if Get(ps, name).None? {
      assert ProfileEntries(cfg, name) == Some([]);
    }
  }

  /** With a loaded configuration the profile table is an object, so only a
      profile that is not an object stops the merge; an unknown profile name
      merges nothing. */
  lemma ActiveOfLoaded(file: ConfigFile, cwd: string, name: string)
    ensures var cfg := LoadConfig(file, cwd);
      var ps := Get(cfg, "profiles").value.entries;
      ActiveConfig(cfg, name, cwd).Some? <==> (Get(ps, name).None? || Get(ps, name).value.VDict?)
    ensures var cfg := LoadConfig(file, cwd);
      var ps := Get(cfg, "profiles").value.entries;
      Get(ps, name).None? ==> ActiveConfig(cfg, name, cwd) == Some(Update(DefaultConfig(cwd), cfg))
  {
    LoadConfigSpec(file, cwd);
    ActiveOverProfiles(LoadConfig(file, cwd), name, DefaultConfig(cwd));
  }

  // -------------------------------------------------------------------
  // Command-line flags (main, after the jobs are built)

  /** The flags main reads; a text flag not given is None. */
  datatype CliArgs = CliArgs(
    outputDir: Option<string>, outtmpl: Option<string>, videoFormat: Option<string>,
    subtitles: Option<string>, proxy: Option<string>, rate: Option<string>,
    parallel: bool, maxWorkers: Value, audio: bool)

  /** A text flag that was given and is not empty. */
  predicate Given(flag: Option<string>) {
    flag.Some? && flag.value != ""
  }

  /** Write a text flag into the configuration when it was given. */
  function SetFlag(d: Dict, key: string, flag: Option<string>): (r: Dict)
    ensures forall j :: Get(r, j) == if j == key && Given(flag) then Some(VStr(flag.value)) else Get(d, j)
  {
    if Given(flag) then Set(d, key, VStr(flag.value)) else d
  }

  /** The text flag that writes key k, if any. */
  function FlagFor(args: CliArgs, k: string): Option<string> {
    if k == "output_dir" then args.outputDir
    else if k == "output_template" then args.outtmpl
    else if k == "video_format" then args.videoFormat
    else if k == "subtitles_languages" then args.subtitles
    else if k == "proxy" then args.proxy
    else if k == "rate_limit" then args.rate
    else None
  }

  /** The six text flags written in order: each given flag replaces its
      key, every other key keeps its value. */
  function TextFlags(active: Dict, args: CliArgs): Dict {
    var d := SetFlag(active, "output_dir", args.outputDir);
    var d := SetFlag(d, "output_template", args.outtmpl);
    var d := SetFlag(d, "video_format", args.videoFormat);
    var d := SetFlag(d, "subtitles_languages", args.subtitles);
    var d := SetFlag(d, "proxy", args.proxy);
    SetFlag(d, "rate_limit", args.rate)
  }

  lemma TextFlagsGet(active: Dict, args: CliArgs, k: string)
    ensures Get(TextFlags(active, args), k) ==
      if Given(FlagFor(args, k)) then Some(VStr(FlagFor(args, k).value)) else Get(active, k)
  {
    var d1 := SetFlag(active, "output_dir", args.outputDir);
    var d2 := SetFlag(d1, "output_template", args.outtmpl);
    var d3 := SetFlag(d2, "video_format", args.videoFormat);
    var d4 := SetFlag(d3, "subtitles_languages", args.subtitles);
    var d5 := SetFlag(d4, "proxy", args.proxy);
    var r := SetFlag(d5, "rate_limit", args.rate);
    assert TextFlags(active, args) == r;
    if k == "rate_limit" {
    } else if k == "proxy" {
      assert Get(r, k) == Get(d5, k);
    } else if k == "subtitles_languages" {
      assert Get(r, k) == Get(d4, k);
    } else if k == "video_format" {
      assert Get(r, k) == Get(d3, k);
    } else if k == "output_template" {
      assert Get(r, k) == Get(d2, k);
    } else if k == "output_dir" {
      assert Get(r, k) == Get(d1, k);
    } else {
      assert Get(r, k) == Get(active, k);
    }
  }

  /** The assignments main makes to active_cfg from the flags. */
  function ApplyCli(active: Dict, args: CliArgs): Dict {
    var d := TextFlags(active, args);
    var d := if args.parallel then Set(Set(d, "parallel_download", VBool(true)), "max_workers", args.maxWorkers) else d;
    if args.audio then Set(d, "prefer_audio", VBool(true)) else d
  }

  /** A given text flag replaces its key, --parallel sets parallel_download
      and max_workers, --audio sets prefer_audio, and every other key keeps
      its value. */
  lemma ApplyCliSpec(active: Dict, args: CliArgs, k: string)
    ensures Get(ApplyCli(active, args), k) ==
      if k == "prefer_audio" && args.audio then Some(VBool(true))
      else if k == "parallel_download" && args.parallel then Some(VBool(true))
      else if k == "max_workers" && args.parallel then Some(args.maxWorkers)
      else if Given(FlagFor(args, k)) then Some(VStr(FlagFor(args, k).value))
      else Get(active, k)
  {
    TextFlagsGet(active, args, k);
  }
}
