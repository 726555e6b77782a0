/** The settings store of the terminal UI (draxon/core/settings.py): a dict
    of settings whose "download_path" defaults to the Downloads folder in
    the home directory, merged with the user's JSON file and written back on
    every change. The file is a field here. */
module Settings {
  import opened Common
  import opened PyValue

  /** What the settings file holds: nothing, text that is not JSON (or
      cannot be read), or a decoded JSON value. */
  datatype SettingsFile = Missing | Malformed | Decoded(json: Value)

  const DownloadPathKey := "download_path"

  /** str(Path.home() / "Downloads"). */
  function DefaultDownloadPath(home: string): string {
    home + "/Downloads"
  }

  function Defaults(home: string): (d: Dict)
    ensures d == [Entry(DownloadPathKey, VStr(DefaultDownloadPath(home)))]
  {
    [Entry(DownloadPathKey, VStr(DefaultDownloadPath(home)))]
  }

  /** _load: the defaults for a missing or malformed file, the defaults
      updated by a decoded JSON object; None where defaults.update raises
      because the decoded value is not an object. */
  function Load(home: string, file: SettingsFile): Option<Dict> {
    match file
    case Missing => Some(Defaults(home))
    case Malformed => Some(Defaults(home))
    case Decoded(v) => if v.VDict? then Some(Update(Defaults(home), v.entries)) else None
  }

  /** "download_path" comes first: where a loaded dict puts it and where
      assignments keep it. */
  predicate PathFirst(d: Dict) {
    |d| >= 1 && d[0].key == DownloadPathKey
  }

  class SettingsManager {
    const home: string
    var settings: Dict
    /** The settings file as save last wrote it (or as found). */
    var file: SettingsFile

    /** __init__: the settings are what _load gives; a file whose JSON is
        not an object makes _load raise, so the manager is never made. */
    constructor(home: string, file: SettingsFile)
      requires Load(home, file).Some?
      ensures this.home == home && this.file == file
      ensures settings == Load(home, file).value
    {
      this.home := home;
      this.file := file;
      settings := Load(home, file).value;
    }

    /** get: the value stored under key, None when there is none. */
    method Get(key: string) returns (v: Option<Value>)
      ensures v.None? <==> !Has(settings, key)
      ensures v.Some? ==> exists i :: 0 <= i < |settings| && settings[i] == Entry(key, v.value)
    {
      v := PyValue.Get(settings, key);
    }

    /** set: assign key, then save the whole dict as a JSON object. */
    method Set(key: string, value: Value)
      modifies this
      ensures settings == PyValue.Set(old(settings), key, value)
      ensures file == Decoded(VDict(settings))
    {
      settings := PyValue.Set(settings, key, value);
      file := Decoded(VDict(settings));
    }
  }

  // ---------------------------------------------------------------------
  // What the store promises

  /** After _load, "download_path" is a key, and the first one; and the
      user's file overrides the defaults key by key: a key it sets takes its
      value (the last one when it repeats), every other key keeps the
      default. */
  lemma LoadMerges(home: string, file: SettingsFile)
    requires Load(home, file).Some?
    ensures Has(Load(home, file).value, DownloadPathKey)
    ensures PathFirst(Load(home, file).value)
    ensures file.Decoded? ==>
      forall k ::
        Get(Load(home, file).value, k)
          == if Get(file.json.entries, k).Some? then Get(file.json.entries, k) else Get(Defaults(home), k)
  {
    var d := Load(home, file).value;
    if file.Decoded? {
      UpdateKeepsFirst(Defaults(home), file.json.entries);
    }
    assert Get(d, DownloadPathKey).Some?;
  }

  /** Assigning keys one by one never moves the first key. */
  lemma {:induction false} UpdateKeepsFirst(d: Dict, e: seq<Entry>)
    requires |d| >= 1
    ensures |Update(d, e)| >= 1 && Update(d, e)[0].key == d[0].key
    decreases |e|
  {
    if e != [] {
      var p := e[..|e| - 1];
      UpdateKeepsFirst(d, p);
      SetKeepsFirst(Update(d, p), e[|e| - 1].key, e[|e| - 1].val);
    }
  }

  lemma SetKeepsFirst(d: Dict, k: string, v: Value)
    requires |d| >= 1
    ensures |Set(d, k, v)| >= 1 && Set(d, k, v)[0].key == d[0].key
  {
    SetKeys(d, k, v);
    assert Keys(Set(d, k, v))[0] == Set(d, k, v)[0].key;
  }

  /** A missing or malformed file leaves exactly the defaults. */
  lemma LoadFallsBack(home: string, file: SettingsFile)
    requires file.Missing? || file.Malformed?
    ensures Load(home, file) == Some(Defaults(home))
    ensures Get(Load(home, file).value, DownloadPathKey) == Some(VStr(home + "/Downloads"))
  {
    assert Defaults(home)[0].key == DownloadPathKey;
  }

  /** set(k, v) then get(k) gives v; every other key is unchanged; and
      "download_path" stays first. */
  lemma SetThenGet(d: Dict, k: string, v: Value)
    requires PathFirst(d)
    ensures Get(Set(d, k, v), k) == Some(v)
    ensures forall j :: j != k ==> Get(Set(d, k, v), j) == Get(d, j)
    ensures PathFirst(Set(d, k, v))
  {
    SetKeepsFirst(d, k, v);
  }

  /** What set saves loads back unchanged: a dict with "download_path"
      first is rebuilt, order included, by updating the defaults with it. */
  lemma SaveLoadRoundTrip(home: string, d: Dict)
    requires PathFirst(d)
    ensures Load(home, Decoded(VDict(d))) == Some(d)
  {
    UpdatePrefix(Defaults(home), d, |d|);
    assert d[..|d|] == d;
  }

  /** Updating a one-entry dict by d, d starting with that entry's key,
      rebuilds d prefix by prefix. */
  lemma {:induction false} UpdatePrefix(base: Dict, d: Dict, n: nat)
    requires |base| == 1 && PathFirst(d) && base[0].key == d[0].key && 1 <= n <= |d|
    ensures Update(base, d[..n]) == d[..n]
    decreases n
  {
    if n == 1 {
      assert d[..1][..0] == [];
      assert KeyIndex(base, d[0].key) == Some(0);
      UpdateOneMore(base, d, 1);
    } else {
      UpdatePrefix(base, d, n - 1);
      var p := d[..n - 1];
      assert !Has(p, d[n - 1].key) by {
        forall j | 0 <= j < |p| ensures p[j].key != d[n - 1].key {
          assert p[j] == d[j];
        }
      }
      SetFresh(p, d[n - 1].key, d[n - 1].val);
      UpdateOneMore(base, d, n);
    }
  }

  /** Updating by d[..n] assigns d's n-th entry after the ones before it. */
  lemma UpdateOneMore(base: Dict, d: Dict, n: nat)
    requires 1 <= n <= |d|
    ensures Update(base, d[..n]) == PyValue.Set(Update(base, d[..n - 1]), d[n - 1].key, d[n - 1].val)
    ensures d[..n] == d[..n - 1] + [d[n - 1]]
  {
    assert d[..n][..n - 1] == d[..n - 1];
  }
}
