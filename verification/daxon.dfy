/** The original console downloader (daxon.py): the list of mp4 resolutions
    it offers for a video, and the hook that feeds the engine's progress
    reports into a tqdm progress bar. */
module Daxon {
  import opened Common
  import opened Dedup
  import opened Ranking
  import opened Formats

  // ---------------------------------------------------------------------
  // select_resolution: the offered resolutions

  /** One offered resolution: {'id': format_id, 'res': "<height>p"}. */
  datatype Candidate = Candidate(id: string, res: string)

  /** A descriptor that is offered unless its resolution was seen: video
      and audio present (an absent codec counts as present), extension
      "mp4", a height that is not 0 or absent. */
  predicate IsMp4Muxed(f: FormatDesc) {
    HasCodec(f.vcodec) && HasCodec(f.acodec) && f.ext == Some("mp4") && HeightTruthy(f)
  }

  /** f"{height}p". */
  function ResOf(f: FormatDesc): string {
    IntToString(f.height.GetOr(0)) + "p"
  }

  function ToCandidate(f: FormatDesc): Candidate {
    Candidate(f.formatId.GetOr(""), ResOf(f))
  }

  function MapCandidates(s: seq<FormatDesc>): (r: seq<Candidate>)
    ensures |r| == |s|
    ensures forall i :: 0 <= i < |s| ==> r[i] == ToCandidate(s[i])
    decreases |s|
  {
    if s == [] then [] else MapCandidates(s[..|s| - 1]) + [ToCandidate(s[|s| - 1])]
  }

  /** [vf['res'] for vf in video_formats]. */
  function ResList(v: seq<Candidate>): (r: seq<string>)
    ensures |r| == |v|
    ensures forall i :: 0 <= i < |v| ==> r[i] == v[i].res
  {
    seq(|v|, i requires 0 <= i < |v| => v[i].res)
  }

  /** The descriptors the loop appends: the first qualifying one of each
      resolution, in input order. */
  function Firsts(formats: seq<FormatDesc>): seq<FormatDesc> {
    FirstByKey(Select(formats, IsMp4Muxed), ResOf)
  }

  /** f['format_id'] raises KeyError for a descriptor without the key. */
  predicate AllHaveIds(s: seq<FormatDesc>) {
    forall i :: 0 <= i < |s| ==> s[i].formatId.Some?
  }

  /** int(s) on the texts str(int) produces: optional '-', then digits. */
  function ParseInt(s: string): Option<int> {
    if |s| >= 2 && s[0] == '-' && forall i :: 1 <= i < |s| ==> IsDigit(s[i]) then
      Some(-(DigitsValue(s[1..]) as int))
    else if |s| >= 1 && forall i :: 0 <= i < |s| ==> IsDigit(s[i]) then
      Some(DigitsValue(s) as int)
    else None
  }

  /** int(str(h)) == h. */
  lemma ParseIntRoundTrip(h: int)
    ensures ParseInt(IntToString(h)) == Some(h)
  {
    var s := IntToString(h);
    if h < 0 {
      NatToStringValue(-h);
      assert s[1..] == NatToString(-h);
    } else {
      NatToStringValue(h);
      assert IsDigit(s[0]);
    }
  }

  /** The sort key int(vf['res'][:-1]); 0 for a text int() would refuse,
      which the offered resolutions never are. */
  function CandidateHeight(c: Candidate): int {
    if |c.res| >= 1 then ParseInt(c.res[..|c.res| - 1]).GetOr(0) else 0
  }

  function CandidateRank(c: Candidate): Rank {
    Rank(CandidateHeight(c), 0.0)
  }

  /** The offered list: the first descriptor of each resolution, sorted by
      height, highest first, stably. */
  function Candidates(formats: seq<FormatDesc>): seq<Candidate> {
    SortDesc(MapCandidates(Firsts(formats)), CandidateRank)
  }

  /** Sorting reads back the height a resolution was made from. */
  lemma CandidateHeightOf(f: FormatDesc)
    requires f.height.Some?
    ensures CandidateHeight(ToCandidate(f)) == f.height.value
  {
    var res := ResOf(f);
    assert res[..|res| - 1] == IntToString(f.height.value);
    ParseIntRoundTrip(f.height.value);
  }

  /** The resolutions listed so far are those of the descriptors kept. */
  lemma ResListKeys(s: seq<FormatDesc>)
    ensures forall x :: x in ResList(MapCandidates(s)) <==> x in KeySet(s, ResOf)
  {
    var v := MapCandidates(s);
    forall x | x in KeySet(s, ResOf) ensures x in ResList(v) {
      var j :| 0 <= j < |s| && ResOf(s[j]) == x;
      assert ResList(v)[j] == x;
    }
  }

  /** A descriptor the loop appends stays among the descriptors appended
      from the whole list. */
  lemma FirstsKeep(formats: seq<FormatDesc>, i: nat)
    requires i < |formats|
    requires Firsts(formats[..i + 1]) == Firsts(formats[..i]) + [formats[i]]
    ensures formats[i] in Firsts(formats)
  {
    SelectPrefix(formats[..i + 1], formats, IsMp4Muxed);
    FirstByKeyPrefix(Select(formats[..i + 1], IsMp4Muxed), Select(formats, IsMp4Muxed), ResOf);
    assert Firsts(formats)[|Firsts(formats[..i])|] == formats[i];
  }

  lemma AllHaveIdsSnoc(s: seq<FormatDesc>, f: FormatDesc)
    ensures AllHaveIds(s + [f]) <==> AllHaveIds(s) && f.formatId.Some?
  {
    if AllHaveIds(s + [f]) {
      assert (s + [f])[|s|] == f;
      forall i | 0 <= i < |s| ensures s[i].formatId.Some? {
        assert (s + [f])[i] == s[i];
      }
    }
  }

  lemma MapCandidatesSnoc(s: seq<FormatDesc>, f: FormatDesc)
    ensures MapCandidates(s + [f]) == MapCandidates(s) + [ToCandidate(f)]
  {
    assert (s + [f])[..|s|] == s;
  }

  /** One turn of the loop: append formats[i] when it qualifies and its
      resolution is new; raised is the KeyError of such a descriptor
      without "format_id". */
  method Offer(formats: seq<FormatDesc>, i: nat, video: seq<Candidate>) returns (raised: bool, next: seq<Candidate>)
    requires i < |formats|
    requires video == MapCandidates(Firsts(formats[..i]))
    ensures raised ==> !AllHaveIds(Firsts(formats))
    ensures !raised ==> next == MapCandidates(Firsts(formats[..i + 1]))
    ensures !raised && AllHaveIds(Firsts(formats[..i])) ==> AllHaveIds(Firsts(formats[..i + 1]))
  {
    var f := formats[i];
    KeptStep(formats, i, IsMp4Muxed, ResOf);
    ResListKeys(Firsts(formats[..i]));
    next := video;
    raised := false;
    if HasCodec(f.vcodec) && HasCodec(f.acodec) && f.ext == Some("mp4") {
      if f.height.Some? && f.height.value != 0 {
        var resolution := IntToString(f.height.value) + "p";
        if resolution !in ResList(video) {
          if f.formatId.None? {
            FirstsKeep(formats, i);
            return true, video;
          }
          MapCandidatesSnoc(Firsts(formats[..i]), f);
          AllHaveIdsSnoc(Firsts(formats[..i]), f);
          next := video + [Candidate(f.formatId.value, resolution)];
        }
      }
    }
  }

  /** The list-building part of select_resolution: the loop appending the
      first descriptor of each resolution, then the sort. raised is the
      KeyError of an appended descriptor without "format_id". */
  method BuildCandidates(formats: seq<FormatDesc>) returns (raised: bool, video: seq<Candidate>)
    ensures raised <==> !AllHaveIds(Firsts(formats))
    ensures !raised ==> video == Candidates(formats)
  {
    video := [];
    for i := 0 to |formats|
      invariant AllHaveIds(Firsts(formats[..i]))
      invariant video == MapCandidates(Firsts(formats[..i]))
    {
      raised, video := Offer(formats, i, video);
      if raised {
        return true, [];
      }
    }
    assert formats[..|formats|] == formats;
    video := SortDesc(video, CandidateRank);
    raised := false;
  }

  // ---------------------------------------------------------------------
  // What the offered list promises

  /** c is made from a qualifying descriptor of formats, the first
      qualifying one with that resolution. */
  ghost predicate OfferedFrom(formats: seq<FormatDesc>, c: Candidate) {
    exists f :: f in formats && IsMp4Muxed(f) && IsFirstOfKey(Select(formats, IsMp4Muxed), f, ResOf)
      && c == ToCandidate(f)
  }

  /** What the loop appends, before the sort. */
  lemma FirstsOffered(formats: seq<FormatDesc>, m: seq<Candidate>)
    requires m == MapCandidates(Firsts(formats))
    ensures forall a :: 0 <= a < |m| ==> OfferedFrom(formats, m[a])
  {
    var sel, firsts := Select(formats, IsMp4Muxed), Firsts(formats);
    FirstByKeyOrigin(sel, ResOf);
    SelectMembers(formats, IsMp4Muxed);
    forall a | 0 <= a < |m| ensures OfferedFrom(formats, m[a]) {
      FirstByKeyFromInput(sel, ResOf, a);
      assert firsts[a] in sel;
    }
  }

  /** Every offered entry is made from a qualifying descriptor, the first
      qualifying one with that resolution. */
  lemma CandidatesFirst(formats: seq<FormatDesc>)
    ensures var c := Candidates(formats);
      forall k :: 0 <= k < |c| ==> OfferedFrom(formats, c[k])
  {
    var m := MapCandidates(Firsts(formats));
    RankedCandidates(m);
    FirstsOffered(formats, m);
    var c := Candidates(formats);
    forall k | 0 <= k < |c| ensures OfferedFrom(formats, c[k]) {
      assert c[k] in multiset(m);
      var a :| 0 <= a < |m| && m[a] == c[k];
      assert OfferedFrom(formats, m[a]);
    }
  }

  /** No resolution is offered twice. */
  lemma CandidatesDistinct(formats: seq<FormatDesc>)
    ensures var c := Candidates(formats);
      forall k, l :: 0 <= k < l < |c| ==> c[k].res != c[l].res
  {
    var sel, firsts := Select(formats, IsMp4Muxed), Firsts(formats);
    var m := MapCandidates(firsts);
    RankedCandidates(m);
    FirstByKeyDistinct(sel, ResOf);
    assert forall a, b :: 0 <= a < b < |m| ==> m[a].res != m[b].res;
    PermDistinctBy(Candidates(formats), m, (x: Candidate) => x.res);
  }

  /** Every qualifying descriptor's resolution is offered. */
  lemma CandidatesCover(formats: seq<FormatDesc>)
    ensures forall f :: f in formats && IsMp4Muxed(f) ==>
      exists k :: 0 <= k < |Candidates(formats)| && Candidates(formats)[k].res == ResOf(f)
  {
    var sel, firsts := Select(formats, IsMp4Muxed), Firsts(formats);
    var m, c := MapCandidates(firsts), Candidates(formats);
    RankedCandidates(m);
    SelectMembers(formats, IsMp4Muxed);
    FirstByKeyCovers(sel, ResOf);
    forall f | f in formats && IsMp4Muxed(f)
      ensures exists k :: 0 <= k < |c| && c[k].res == ResOf(f)
    {
      var a :| 0 <= a < |firsts| && ResOf(firsts[a]) == ResOf(f);
      PermHas(c, m, a);
    }
  }

  /** What the sort keeps of a list of candidates, without its stability. */
  lemma RankedCandidates(m: seq<Candidate>)
    ensures multiset(SortDesc(m, CandidateRank)) == multiset(m)
    ensures SortedDesc(SortDesc(m, CandidateRank), CandidateRank)
  {
    SortDescSpec(m, CandidateRank);
  }

  /** An element of m has a position in any permutation of m. */
  lemma PermHas<T>(c: seq<T>, m: seq<T>, a: nat)
    requires multiset(c) == multiset(m) && a < |m|
    ensures exists k :: 0 <= k < |c| && c[k] == m[a]
  {
    assert m[a] in multiset(c);
  }

  /** A permutation of a list whose keys are distinct has distinct keys. */
  lemma PermDistinctBy<T, K>(c: seq<T>, m: seq<T>, key: T -> K)
    requires multiset(c) == multiset(m)
    requires forall a, b :: 0 <= a < b < |m| ==> key(m[a]) != key(m[b])
    ensures forall k, l :: 0 <= k < l < |c| ==> key(c[k]) != key(c[l])
  {
    PermDistinct(c, m);
    forall k, l | 0 <= k < l < |c| ensures key(c[k]) != key(c[l]) {
      assert c[k] in multiset(m) && c[l] in multiset(m);
      var a :| 0 <= a < |m| && m[a] == c[k];
      var b :| 0 <= b < |m| && m[b] == c[l];
      assert a != b;
    }
  }

  /** A permutation of a list without repeated elements has none. */
  lemma PermDistinct<T>(c: seq<T>, m: seq<T>)
    requires multiset(c) == multiset(m)
    requires forall a, b :: 0 <= a < b < |m| ==> m[a] != m[b]
    ensures forall k, l :: 0 <= k < l < |c| ==> c[k] != c[l]
  {
    CountAtMostOne(m);
    forall k, l | 0 <= k < l < |c| ensures c[k] != c[l] {
      CountTwo(c, k, l);
    }
  }

  lemma {:induction false} CountAtMostOne<T>(m: seq<T>)
    requires forall a, b :: 0 <= a < b < |m| ==> m[a] != m[b]
    ensures forall x :: multiset(m)[x] <= 1
    decreases |m|
  {
    if m != [] {
      var p := m[..|m| - 1];
      CountAtMostOne(p);
      assert m == p + [m[|m| - 1]];
      assert m[|m| - 1] !in p;
    }
  }

  lemma CountTwo<T>(c: seq<T>, k: nat, l: nat)
    requires k < l < |c|
    ensures c[k] == c[l] ==> multiset(c)[c[k]] >= 2
  {
    assert c == c[..k] + [c[k]] + c[k + 1..l] + [c[l]] + c[l + 1..];
  }

  /** The offered list is sorted by height, highest first. */
  lemma CandidatesSorted(formats: seq<FormatDesc>)
    ensures var c := Candidates(formats);
      forall k, l :: 0 <= k < l < |c| ==> CandidateHeight(c[k]) >= CandidateHeight(c[l])
  {
    RankedCandidates(MapCandidates(Firsts(formats)));
  }

  /** The height each offered entry sorts by is the height of the
      descriptor it came from. */
  lemma CandidatesHeights(formats: seq<FormatDesc>)
    ensures forall f :: f in formats && IsMp4Muxed(f) ==>
      CandidateHeight(ToCandidate(f)) == f.height.value
  {
    forall f | f in formats && IsMp4Muxed(f)
      ensures CandidateHeight(ToCandidate(f)) == f.height.value
    {
      CandidateHeightOf(f);
    }
  }

  /** select_resolution returns None exactly when no descriptor qualifies
      (and no KeyError was raised, since none is appended). */
  lemma NoCandidates(formats: seq<FormatDesc>)
    ensures Candidates(formats) == [] <==> forall i :: 0 <= i < |formats| ==> !IsMp4Muxed(formats[i])
    ensures Candidates(formats) == [] ==> AllHaveIds(Firsts(formats))
  {
    var sel := Select(formats, IsMp4Muxed);
    var m := MapCandidates(Firsts(formats));
    SortDescSpec(m, CandidateRank);
    SelectEmpty(formats, IsMp4Muxed);
    FirstByKeyEmpty(sel, ResOf);
    assert |Candidates(formats)| == |m| by {
      assert |multiset(Candidates(formats))| == |multiset(m)|;
    }
  }

  // ---------------------------------------------------------------------
  // TqdmProgressHook

  /** One progress report of the engine; None stands for a missing key. */
  datatype HookEvent = HookEvent(
    status: Option<string>,
    totalBytes: Option<int>,
    totalBytesEstimate: Option<int>,
    downloadedBytes: Option<int>)

  /** What the hook reads and writes of a progress bar. */
  datatype Bar = Bar(n: int, total: Option<int>, closed: bool)

  /** The bar after the hook, and whether it raised KeyError. */
  datatype HookOutcome = HookOutcome(bar: Bar, raised: bool)

  predicate Truthy(x: Option<int>) {
    x.Some? && x.value != 0
  }

  /** d.get('total_bytes') or d.get('total_bytes_estimate'). */
  function TotalOf(d: HookEvent): Option<int> {
    if Truthy(d.totalBytes) then d.totalBytes else d.totalBytesEstimate
  }

  /** The reports the hook raises KeyError on: no "status", or a
      "downloading" report with a total but no "downloaded_bytes". */
  predicate Raises(d: HookEvent) {
    d.status.None? || (Sized(d) && d.downloadedBytes.None?)
  }

  /** A "downloading" report that carries a total, so moves the bar. */
  predicate Sized(d: HookEvent) {
    d.status == Some("downloading") && Truthy(TotalOf(d))
  }

  /** __call__ on a bar's state. A report with a total sets the total and
      moves an open bar to the downloaded bytes (update() does nothing on a
      closed bar); one without leaves the bar alone; "finished" closes the
      bar, first giving it its position as total when it had none; a
      missing key raises, after the total was set when it is
      "downloaded_bytes". */
  function Hook(b: Bar, d: HookEvent): (r: HookOutcome)
    ensures r.raised <==> Raises(d)
    ensures Sized(d) ==> r.bar.total == TotalOf(d) && r.bar.closed == b.closed
    ensures Sized(d) && !r.raised ==> r.bar.n == if b.closed then b.n else d.downloadedBytes.value
    ensures Sized(d) && r.raised ==> r.bar.n == b.n
    ensures !Sized(d) && d.status != Some("finished") ==> r.bar == b
    ensures d.status == Some("finished") ==>
      r.bar == Bar(b.n, if b.total == None then Some(b.n) else b.total, true)
  {
    if d.status.None? then HookOutcome(b, true)
    else if d.status.value == "downloading" then
      var total := TotalOf(d);
      if !Truthy(total) then HookOutcome(b, false)
      else if d.downloadedBytes.None? then HookOutcome(b.(total := total), true)
      else HookOutcome(b.(total := total, n := if b.closed then b.n else b.n + (d.downloadedBytes.value - b.n)), false)
    else if d.status.value == "finished" then
      HookOutcome(b.(total := if b.total.None? then Some(b.n) else b.total, closed := true), false)
    else HookOutcome(b, false)
  }

  /** The tqdm bar: its position n, its total and whether it was closed. */
  class Counter {
    var n: int
    var total: Option<int>
    var closed: bool

    /** tqdm(total=None). */
    constructor()
      ensures n == 0 && total == None && !closed
    {
      n := 0;
      total := None;
      closed := false;
    }

    function State(): Bar
      reads this
    {
      Bar(n, total, closed)
    }

    /** update(k): advance the position by k; a closed bar is disabled
        and stays where it is. */
    method Update(k: int)
      modifies this`n
      ensures n == if closed then old(n) else old(n) + k
    {
      if !closed {
        n := n + k;
      }
    }

    method Close()
      modifies this`closed
      ensures closed
    {
      closed := true;
    }
  }

  class ProgressHook {
    const t: Counter

    constructor(t: Counter)
      ensures this.t == t
    {
      this.t := t;
    }

    /** __call__(d). */
    method Call(d: HookEvent) returns (raised: bool)
      modifies t
      ensures Hook(old(t.State()), d) == HookOutcome(t.State(), raised)
    {
      if d.status.None? {
        return true;
      }
      if d.status.value == "downloading" {
        var totalBytes := if Truthy(d.totalBytes) then d.totalBytes else d.totalBytesEstimate;
        if Truthy(totalBytes) {
          t.total := totalBytes;
          if d.downloadedBytes.None? {
            return true;
          }
          t.Update(d.downloadedBytes.value - t.n);
        }
      } else if d.status.value == "finished" {
        if t.total.None? {
          t.total := Some(t.n);
        }
        t.Close();
      }
      raised := false;
    }
  }

  // ---------------------------------------------------------------------
  // A download's reports, one after another

  /** The hook applied to each report in turn; a raise ends the run. */
  function Run(b: Bar, ds: seq<HookEvent>): HookOutcome
    decreases |ds|
  {
    if ds == [] then HookOutcome(b, false)
    else
      var o := Hook(b, ds[0]);
      if o.raised then o else Run(o.bar, ds[1..])
  }

  /** The reports before the first "finished" one: those that can still
      move the bar. */
  function BeforeFinished(ds: seq<HookEvent>): (r: seq<HookEvent>)
    ensures |r| <= |ds| && r == ds[..|r|]
    ensures forall i :: 0 <= i < |r| ==> r[i].status != Some("finished")
    ensures |r| < |ds| ==> ds[|r|].status == Some("finished")
    decreases |ds|
  {
    if ds == [] || ds[0].status == Some("finished") then []
    else [ds[0]] + BeforeFinished(ds[1..])
  }

  /** downloaded_bytes of the last report that moves the bar, or n0. */
  function LastPosition(ds: seq<HookEvent>, n0: int): int
    decreases |ds|
  {
    if ds == [] then n0
    else if Sized(ds[|ds| - 1]) then ds[|ds| - 1].downloadedBytes.GetOr(n0)
    else LastPosition(ds[..|ds| - 1], n0)
  }

  /** A run raises exactly when one of its reports would. */
  lemma {:induction false} RunRaises(b: Bar, ds: seq<HookEvent>)
    ensures Run(b, ds).raised <==> exists i :: 0 <= i < |ds| && Raises(ds[i])
    decreases |ds|
  {
    if ds != [] {
      var o := Hook(b, ds[0]);
      if !o.raised {
        RunRaises(o.bar, ds[1..]);
        if exists i :: 0 <= i < |ds| && Raises(ds[i]) {
          var i :| 0 <= i < |ds| && Raises(ds[i]);
          assert ds[1..][i - 1] == ds[i];
        }
      }
    }
  }

  /** After a run of reports none of which raises, an open bar stands at
      the downloaded bytes of the last report that carried a total before
      the first "finished" report, and a closed bar does not move; once a
      report said "finished" the bar is closed and has a total; a total
      once set is never cleared. */
  lemma {:induction false} RunTracks(b: Bar, ds: seq<HookEvent>)
    requires forall i :: 0 <= i < |ds| ==> !Raises(ds[i])
    ensures Run(b, ds).bar.n == if b.closed then b.n else LastPosition(BeforeFinished(ds), b.n)
    ensures (b.closed && b.total.Some?) || (exists i :: 0 <= i < |ds| && ds[i].status == Some("finished")) ==>
      Run(b, ds).bar.closed && Run(b, ds).bar.total.Some?
    ensures b.total.Some? ==> Run(b, ds).bar.total.Some?
    decreases |ds|
  {
    if ds != [] {
      var o := Hook(b, ds[0]);
      RunTracks(o.bar, ds[1..]);
      if !b.closed && ds[0].status != Some("finished") {
        var p := BeforeFinished(ds);
        assert p == [ds[0]] + BeforeFinished(ds[1..]);
        assert p[1..] == BeforeFinished(ds[1..]);
        LastPositionFront(p, b.n, o.bar.n);
      }
      if exists i :: 0 <= i < |ds| && ds[i].status == Some("finished") {
        var i :| 0 <= i < |ds| && ds[i].status == Some("finished");
        if i > 0 {
          assert ds[1..][i - 1] == ds[i];
        }
      }
    }
  }

  /** A playlist download closes the bar at its first item's "finished"
      report; a later item's sized report still sets the total, but the
      closed bar keeps its position. */
  lemma ClosedBarStays()
    ensures Run(Bar(0, None, false),
                [HookEvent(Some("finished"), None, None, None),
                 HookEvent(Some("downloading"), Some(100), None, Some(50))])
         == HookOutcome(Bar(0, Some(100), true), false)
  {
    var ds := [HookEvent(Some("finished"), None, None, None),
               HookEvent(Some("downloading"), Some(100), None, Some(50))];
    assert Hook(Bar(0, None, false), ds[0]) == HookOutcome(Bar(0, Some(0), true), false);
    assert ds[1..] == [ds[1]] && ds[1..][1..] == [];
  }

  /** LastPosition read from the front: the first report sets the start. */
  lemma {:induction false} LastPositionFront(ds: seq<HookEvent>, n0: int, n1: int)
    requires ds != [] && forall i :: 0 <= i < |ds| ==> !Raises(ds[i])
    requires n1 == if Sized(ds[0]) then ds[0].downloadedBytes.GetOr(n0) else n0
    ensures LastPosition(ds[1..], n1) == LastPosition(ds, n0)
    decreases |ds|
  {
    if |ds| > 1 {
      var p := ds[..|ds| - 1];
      assert p[0] == ds[0];
      assert p[1..] == ds[1..][..|ds[1..]| - 1];
      assert ds[1..][|ds[1..]| - 1] == ds[|ds| - 1];
      assert !Raises(ds[|ds| - 1]);
      LastPositionFront(p, n0, n1);
    } else {
      assert ds[..0] == [];
    }
  }
}
