/** DownloadManager (draxon.py:175-273): the options each engine call gets,
    the progress hook's key-to-task bookkeeping, and the sequential download
    loop with its cooperative shutdown flag. The engine is an outcome per
    job (it returns or raises); Rich's progress rendering, the lock and the
    parallel branch are not part of this model. */
module Manager {
  import opened Common
  import opened PyValue

  /** The process-wide shutdown event. */
  class ShutdownEvent {
    var flag: bool

    constructor()
      ensures !flag
    {
      flag := false;
    }

    /** _signal_handler: set the event. */
    method Signal()
      modifies this
      ensures flag
    {
      flag := true;
    }
  }

  // -------------------------------------------------------------------
  // _build_opts (draxon.py:235-242)

  /** Iterating the progress_hooks value: a missing key gives the default
      [], a list its items, a string its characters, a dict its keys; None,
      a bool, an int or a hook cannot be iterated (None: TypeError). */
  function HookItems(v: Option<Value>): Option<seq<Value>> {
    match v
    case None => Some([])
    case Some(VList(xs)) => Some(xs)
    case Some(VStr(s)) => Some(seq(|s|, i requires 0 <= i < |s| => VStr([s[i]])))
    case Some(VDict(es)) => Some(seq(|es|, i requires 0 <= i < |es| => VStr(es[i].key)))
    case Some(_) => None
  }

  /** The hooks other than the owner's own bound hook, in order. */
  function OtherHooks(hs: seq<Value>, owner: nat): (r: seq<Value>)
    ensures forall h :: h in r <==> h in hs && h != VHook(owner)
    ensures |r| <= |hs|
    decreases |hs|
  {
    if hs == [] then []
    else
      var init, last := hs[..|hs| - 1], hs[|hs| - 1];
      assert hs == init + [last];
      var rest := OtherHooks(init, owner);
      if last == VHook(owner) then rest else rest + [last]
  }

  /** A list without the owner's hook is kept as it is. */
  lemma {:induction false} OtherHooksKeep(hs: seq<Value>, owner: nat)
    requires VHook(owner) !in hs
    ensures OtherHooks(hs, owner) == hs
    decreases |hs|
  {
    if hs != [] {
      var init := hs[..|hs| - 1];
      assert hs == init + [hs[|hs| - 1]];
      OtherHooksKeep(init, owner);
    }
  }

  /** _build_opts: the base options updated by the job's, with the owner's
      progress hook moved to the end of progress_hooks; None where
      progress_hooks holds something that cannot be iterated. */
  function BuildOpts(base: Dict, extra: Dict, owner: nat): Option<Dict> {
    var opts := Update(base, extra);
    match HookItems(Get(opts, "progress_hooks"))
    case None => None
    case Some(hs) => Some(Set(opts, "progress_hooks", VList(OtherHooks(hs, owner) + [VHook(owner)])))
  }

  /** The progress_hooks value _build_opts starts from: the job's when it
      has one, else the base's. */
  function HooksGiven(base: Dict, extra: Dict, k: string): Option<Value> {
    if Get(extra, k).Some? then Get(extra, k) else Get(base, k)
  }

  /** The options exist exactly when the given progress_hooks is missing, a
      list, a string or a dict. */
  lemma BuildOptsSome(base: Dict, extra: Dict, owner: nat, k: string)
    requires k == "progress_hooks"
    ensures var v := HooksGiven(base, extra, k);
      BuildOpts(base, extra, owner).Some? <==> v.None? || v.value.VList? || v.value.VStr? || v.value.VDict?
  {
  }

  /** Every key but progress_hooks holds the job's value when the job has
      one, else the base's. */
  lemma BuildOptsKeys(base: Dict, extra: Dict, owner: nat, k: string)
    requires BuildOpts(base, extra, owner).Some? && k != "progress_hooks"
    ensures Get(BuildOpts(base, extra, owner).value, k) == HooksGiven(base, extra, k)
  {
  }

  /** progress_hooks is a list that ends with the owner's hook, holds it
      nowhere else, and holds every other given hook. */
  lemma BuildOptsHooks(base: Dict, extra: Dict, owner: nat, k: string)
    requires BuildOpts(base, extra, owner).Some? && k == "progress_hooks"
    ensures var v := Get(BuildOpts(base, extra, owner).value, k);
      v.Some? && v.value.VList? && |v.value.items| >= 1
      && v.value.items[|v.value.items| - 1] == VHook(owner)
      && (forall i :: 0 <= i < |v.value.items| - 1 ==> v.value.items[i] != VHook(owner))
      && (forall h :: h in HookItems(HooksGiven(base, extra, k)).value && h != VHook(owner) ==> h in v.value.items)
  {
    var hs := HookItems(HooksGiven(base, extra, k)).value;
    var items := OtherHooks(hs, owner) + [VHook(owner)];
    assert Get(BuildOpts(base, extra, owner).value, k) == Some(VList(items));
    forall i | 0 <= i < |items| - 1
      ensures items[i] != VHook(owner)
    {
      assert items[i] in OtherHooks(hs, owner);
    }
  }

  /** Building again from options that went through _build_opts changes
      nothing: the hook is not added twice. */
  lemma BuildOptsIdempotent(base: Dict, extra: Dict, owner: nat)
    requires BuildOpts(base, extra, owner).Some?
    ensures BuildOpts(BuildOpts(base, extra, owner).value, [], owner) == BuildOpts(base, extra, owner)
  {
    var r := BuildOpts(base, extra, owner).value;
    var k := "progress_hooks";
    BuildOptsHooks(base, extra, owner, k);
    var items := Get(r, k).value.items;
    var others := items[..|items| - 1];
    assert items == others + [VHook(owner)];
    assert VHook(owner) !in others by {
      forall i | 0 <= i < |others|
        ensures others[i] != VHook(owner)
      {
        assert others[i] == items[i];
      }
    }
    OtherHooksKeep(others, owner);
    assert OtherHooks(items, owner) == others;
    assert Update(r, []) == r;
    SetSame(r, k, VList(items));
  }

  // -------------------------------------------------------------------
  // _progress_hook (draxon.py:193-233): the key-to-task bookkeeping

  /** Python's `a or b`. */
  function Or(a: Value, b: Value): Value {
    if Truthy(a) then a else b
  }

  /** Lists and dicts cannot be dict keys. */
  predicate Hashable(v: Value) {
    !v.VList? && !v.VDict?
  }

  /** `d.get("info_dict") or {}`. */
  function Info(ev: Dict): Value {
    Or(GetOr(ev, "info_dict", VNone), VDict([]))
  }

  /** The webpage_url the key may fall back to is missing or a scalar. */
  predicate WebUrlScalar(ev: Dict) {
    Info(ev).VDict? ==> IsScalar(GetOr(Info(ev).entries, "webpage_url", VStr("")))
  }

  /** The key an event is filed under: the first truthy of the info's id
      and url, the event's filename and tmpfilename, str of the info's
      webpage_url, and str(id(d)) (objId); None where the hook raises
      (info_dict is truthy but not a dict, or the key is a list or dict). */
  function HookKey(ev: Dict, objId: string): Option<Value>
    requires WebUrlScalar(ev)
  {
    var info := Info(ev);
    if !info.VDict? then None
    else
      var es := info.entries;
      var web := VStr(Str(GetOr(es, "webpage_url", VStr(""))));
      var k := Or(GetOr(es, "id", VNone), Or(GetOr(es, "url", VNone),
               Or(GetOr(ev, "filename", VNone), Or(GetOr(ev, "tmpfilename", VNone), Or(web, VStr(objId))))));
      if Hashable(k) then Some(k) else None
  }

  /** The key is never falsy, since str(id(d)) is not empty. */
  lemma HookKeyTruthy(ev: Dict, objId: string)
    requires WebUrlScalar(ev) && objId != "" && HookKey(ev, objId).Some?
    ensures Truthy(HookKey(ev, objId).value)
  {
  }

  /** The task map, the next task id Rich's Progress hands out (0, 1, 2,
      ...), and the tasks stopped so far. */
  datatype TaskBook = TaskBook(tasks: map<Value, nat>, next: nat, stopped: set<nat>)

  /** Every id in the map was handed out, no two keys share one, and only
      handed-out tasks are stopped. */
  predicate BookValid(b: TaskBook) {
    (forall k :: k in b.tasks ==> b.tasks[k] < b.next)
    && (forall k1, k2 :: k1 in b.tasks && k2 in b.tasks && k1 != k2 ==> b.tasks[k1] != b.tasks[k2])
    && (forall t :: t in b.stopped ==> t < b.next)
  }

  /** The key filed under a fresh task when it has none. */
  function File(b: TaskBook, k: Value): (r: TaskBook)
    ensures k in r.tasks
  {
    if k in b.tasks then b else TaskBook(b.tasks[k := b.next], b.next + 1, b.stopped)
  }

  /** One event's bookkeeping: "downloading" files the key; "finished"
      files it and stops its task; "error" stops its task only when the
      key has a truthy task id; any other status changes nothing. */
  function HookBook(b: TaskBook, status: Value, k: Value): TaskBook {
    if status == VStr("downloading") then File(b, k)
    else if status == VStr("finished") then
      var f := File(b, k);
      f.(stopped := f.stopped + {f.tasks[k]})
    else if status == VStr("error") then
      (if k in b.tasks && b.tasks[k] != 0 then b.(stopped := b.stopped + {b.tasks[k]}) else b)
    else b
  }

  /** The bookkeeping stays valid. */
  lemma HookBookValid(b: TaskBook, status: Value, k: Value)
    requires BookValid(b)
    ensures BookValid(HookBook(b, status, k))
  {
    if status == VStr("downloading") {
      FileValid(b, k);
    } else if status == VStr("finished") {
      FileValid(b, k);
      var f := File(b, k);
      StopValid(f, f.tasks[k]);
    } else if status == VStr("error") && k in b.tasks && b.tasks[k] != 0 {
      StopValid(b, b.tasks[k]);
    }
  }

  /** Filing a key hands out a fresh id only to a key without one. */
  lemma FileValid(b: TaskBook, k: Value)
    requires BookValid(b)
    ensures BookValid(File(b, k)) && k in File(b, k).tasks && File(b, k).tasks[k] < File(b, k).next
  {
    var f := File(b, k);
    if k !in b.tasks {
      forall k1, k2 | k1 in f.tasks && k2 in f.tasks && k1 != k2
        ensures f.tasks[k1] != f.tasks[k2]
      {
        if k1 != k && k2 != k {
          assert f.tasks[k1] == b.tasks[k1] && f.tasks[k2] == b.tasks[k2];
        }
      }
    }
  }

  /** Stopping a task that was handed out. */
  lemma StopValid(b: TaskBook, t: nat)
    requires BookValid(b) && t < b.next
    ensures BookValid(b.(stopped := b.stopped + {t}))
  {
  }

  /** A "downloading" or "finished" event leaves its key with a task: the
      one it had, or the next id; every other key keeps its task. */
  lemma HookBookFiles(b: TaskBook, status: Value, k: Value)
    requires status == VStr("downloading") || status == VStr("finished")
    ensures var r := HookBook(b, status, k);
      k in r.tasks && r.tasks[k] == (if k in b.tasks then b.tasks[k] else b.next)
      && r.next == (if k in b.tasks then b.next else b.next + 1)
      && forall j :: j in b.tasks ==> j in r.tasks && r.tasks[j] == b.tasks[j]
  {
  }

  /** A "finished" event stops its key's task. */
  lemma HookBookFinished(b: TaskBook, k: Value)
    ensures var r := HookBook(b, VStr("finished"), k);
      k in r.tasks && r.tasks[k] in r.stopped
  {
  }

  /** An "error" event stops the key's task when its id is not 0; the
      first task handed out (id 0) is falsy and is never stopped there. */
  lemma HookBookError(b: TaskBook, k: Value)
    requires k in b.tasks
    ensures b.tasks[k] != 0 ==> HookBook(b, VStr("error"), k).stopped == b.stopped + {b.tasks[k]}
    ensures b.tasks[k] == 0 ==> HookBook(b, VStr("error"), k) == b
  {
  }

  // -------------------------------------------------------------------
  // download, sequential branch (draxon.py:245-273)

  /** _build_opts of one manager. */
  function Builder(base: Dict, owner: nat): Dict -> Option<Dict> {
    extra => BuildOpts(base, extra, owner)
  }

  /** Whether the c-th check of the flag sees it set (two checks per job:
      the loop's, then _run_single's): it was set on entry, or the signal
      handler, which runs asynchronously, has run before check c. */
  predicate FlagAt(set0: bool, signal: nat, c: nat) {
    set0 || signal <= c
  }

  /** Job i reaches the engine when both its checks see the flag clear and
      its options build. */
  predicate Proceeds(jobs: seq<(string, Dict)>, build: Dict -> Option<Dict>, set0: bool, signal: nat, i: nat)
    requires i < |jobs|
  {
    !FlagAt(set0, signal, 2 * i) && !FlagAt(set0, signal, 2 * i + 1) && build(jobs[i].1).Some?
  }

  /** The number of jobs that reach the engine, counting from job i: those
      before the first one that does not. */
  function Reached(jobs: seq<(string, Dict)>, build: Dict -> Option<Dict>, set0: bool, signal: nat, i: nat): (r: nat)
    requires i <= |jobs|
    ensures i <= r <= |jobs|
    decreases |jobs| - i
  {
    if i == |jobs| || !Proceeds(jobs, build, set0, signal, i) then i
    else Reached(jobs, build, set0, signal, i + 1)
  }

  /** The engine calls of the first n jobs: each URL with its options. */
  function Runs(jobs: seq<(string, Dict)>, build: Dict -> Option<Dict>, n: nat): (r: seq<(string, Dict)>)
    requires n <= |jobs|
    ensures |r| == n
  {
    if n == 0 then []
    else Runs(jobs, build, n - 1) + [(jobs[n - 1].0, build(jobs[n - 1].1).GetOr([]))]
  }

  /** The URLs logged as failed among the first n jobs, in order. */
  function Failed(jobs: seq<(string, Dict)>, fails: set<nat>, n: nat): seq<string>
    requires n <= |jobs|
  {
    if n == 0 then []
    else Failed(jobs, fails, n - 1) + (if n - 1 in fails then [jobs[n - 1].0] else [])
  }

  /** The download raises exactly when the first job that does not reach
      the engine passed the loop's check and its options could not be
      built. */
  predicate RaisesAt(jobs: seq<(string, Dict)>, build: Dict -> Option<Dict>, set0: bool, signal: nat, m: nat)
    requires m <= |jobs|
  {
    m < |jobs| && !FlagAt(set0, signal, 2 * m) && build(jobs[m].1).None?
  }

  /** Where the sequential loop stops at job i, after the jobs counted by
      Reached and at most one more that _run_single skipped: job i is the
      first job not reached, and the loop raises as RaisesAt says. */
  lemma SequentialStops(jobs: seq<(string, Dict)>, build: Dict -> Option<Dict>, set0: bool, signal: nat,
                        i: nat, m: nat, skipped: bool, raised: bool)
    requires i < |jobs| && m == Reached(jobs, build, set0, signal, 0)
    requires !skipped ==> i <= m && Reached(jobs, build, set0, signal, i) == m
    requires skipped ==> i == m + 1 && m < |jobs| && build(jobs[m].1).Some? && FlagAt(set0, signal, 2 * m + 1)
    requires FlagAt(set0, signal, 2 * i) || build(jobs[i].1).None?
    requires raised <==> RaisesAt(jobs, build, set0, signal, i)
    ensures !skipped ==> m == i
    ensures raised == RaisesAt(jobs, build, set0, signal, m)
  {
  }

  /** Where the sequential loop goes on past job i, no job was skipped
      before it, and either job i reached the engine or it is the first
      that did not, skipped by _run_single's check. */
  lemma SequentialGoesOn(jobs: seq<(string, Dict)>, build: Dict -> Option<Dict>, set0: bool, signal: nat,
                         i: nat, m: nat, skipped: bool)
    requires i < |jobs| && m == Reached(jobs, build, set0, signal, 0)
    requires !skipped ==> i <= m && Reached(jobs, build, set0, signal, i) == m
    requires skipped ==> i == m + 1 && m < |jobs| && FlagAt(set0, signal, 2 * m + 1)
    requires !FlagAt(set0, signal, 2 * i) && build(jobs[i].1).Some?
    ensures !skipped
    ensures Proceeds(jobs, build, set0, signal, i) ==> i + 1 <= m && Reached(jobs, build, set0, signal, i + 1) == m
    ensures !Proceeds(jobs, build, set0, signal, i) ==> m == i && FlagAt(set0, signal, 2 * m + 1)
  {
  }

  /** Where the sequential loop runs out of jobs, either every job was
      reached or the last one was skipped by _run_single's check; either
      way nothing raised. */
  lemma SequentialEnds(jobs: seq<(string, Dict)>, build: Dict -> Option<Dict>, set0: bool, signal: nat,
                       i: nat, m: nat, skipped: bool)
    requires i == |jobs| && m == Reached(jobs, build, set0, signal, 0)
    requires !skipped ==> i <= m && Reached(jobs, build, set0, signal, i) == m
    requires skipped ==> m < |jobs| && build(jobs[m].1).Some?
    ensures !skipped ==> m == |jobs|
    ensures !RaisesAt(jobs, build, set0, signal, m)
  {
  }

  /** Jobs reach the engine in input order, each with the options built
      from its own overrides. */
  lemma {:induction false} RunsInOrder(jobs: seq<(string, Dict)>, build: Dict -> Option<Dict>, n: nat, i: nat)
    requires i < n <= |jobs| && build(jobs[i].1).Some?
    ensures Runs(jobs, build, n)[i] == (jobs[i].0, build(jobs[i].1).value)
    decreases n
  {
    if i < n - 1 {
      RunsInOrder(jobs, build, n - 1, i);
    }
  }

  /** Every job counted by Reached proceeded. */
  lemma {:induction false} ReachedProceeds(jobs: seq<(string, Dict)>, build: Dict -> Option<Dict>, set0: bool, signal: nat,
                                           i: nat, j: nat)
    requires i <= |jobs| && i <= j < Reached(jobs, build, set0, signal, i)
    ensures Proceeds(jobs, build, set0, signal, j)
    decreases |jobs| - i
  {
    if i < j {
      ReachedProceeds(jobs, build, set0, signal, i + 1, j);
    }
  }

  /** No job starts once the flag is set: a job whose loop check or whose
      _run_single check sees the flag set, and every job after it, never
      reaches the engine. */
  lemma NoStartAfterShutdown(jobs: seq<(string, Dict)>, build: Dict -> Option<Dict>, set0: bool, signal: nat, i: nat)
    requires i < |jobs| && (FlagAt(set0, signal, 2 * i) || FlagAt(set0, signal, 2 * i + 1))
    ensures Reached(jobs, build, set0, signal, 0) <= i
  {
    if Reached(jobs, build, set0, signal, 0) > i {
      ReachedProceeds(jobs, build, set0, signal, 0, i);
    }
  }

  /** Failures do not stop the loop: without a shutdown and with options
      that build, every job reaches the engine, whatever the engine does
      with the ones before it. */
  lemma {:induction false} AllJobsRun(jobs: seq<(string, Dict)>, build: Dict -> Option<Dict>, signal: nat, i: nat)
    requires i <= |jobs| && 2 * |jobs| <= signal
    requires forall j :: i <= j < |jobs| ==> build(jobs[j].1).Some?
    ensures Reached(jobs, build, false, signal, i) == |jobs|
    decreases |jobs| - i
  {
    if i < |jobs| {
      AllJobsRun(jobs, build, signal, i + 1);
    }
  }

  /** A failed job is logged with its URL; the others are not. */
  lemma {:induction false} FailedUrls(jobs: seq<(string, Dict)>, fails: set<nat>, n: nat)
    requires n <= |jobs|
    ensures |Failed(jobs, fails, n)| <= n
    ensures forall u :: u in Failed(jobs, fails, n) ==> exists i :: 0 <= i < n && i in fails && jobs[i].0 == u
    decreases n
  {
    if n > 0 {
      FailedUrls(jobs, fails, n - 1);
    }
  }

  /** The manager: its base options, its progress hook's bookkeeping, and
      what reached the engine (each call's URL and options) and the log
      (the URLs whose download raised). */
  class DownloadManager {
    const owner: nat
    var baseOpts: Dict
    var maxWorkers: int
    var taskMap: map<Value, nat>
    var nextTask: nat
    var stoppedTasks: set<nat>
    var runs: seq<(string, Dict)>
    var errors: seq<string>

    /** A manager over the given base options; owner identifies its bound
        progress hook. */
    constructor(base: Dict, workers: int, id: nat)
      ensures owner == id && baseOpts == base && maxWorkers == workers
      ensures taskMap == map[] && nextTask == 0 && stoppedTasks == {}
      ensures runs == [] && errors == []
    {
      owner := id;
      baseOpts := base;
      maxWorkers := workers;
      taskMap := map[];
      nextTask := 0;
      stoppedTasks := {};
      runs := [];
      errors := [];
    }

    function Book(): TaskBook
      reads this
    {
      TaskBook(taskMap, nextTask, stoppedTasks)
    }

    /** _progress_hook: nothing once the flag is set; otherwise the event's
        key is filed and its task stopped as HookBook says. raised is the
        exception the hook lets out, where the key cannot be computed. */
    method ProgressHook(ev: Dict, objId: string, shutdown: ShutdownEvent) returns (raised: bool)
      requires WebUrlScalar(ev)
      modifies this`taskMap, this`nextTask, this`stoppedTasks
      ensures raised <==> !shutdown.flag && HookKey(ev, objId).None?
      ensures Book() == if shutdown.flag || raised then old(Book())
        else HookBook(old(Book()), GetOr(ev, "status", VNone), HookKey(ev, objId).value)
    {
      if shutdown.flag {
        return false;
      }
      var status := GetOr(ev, "status", VNone);
      var info := Or(GetOr(ev, "info_dict", VNone), VDict([]));
      if !info.VDict? {
        return true;
      }
      var es := info.entries;
      var web := VStr(Str(GetOr(es, "webpage_url", VStr(""))));
      var key := Or(GetOr(es, "id", VNone), Or(GetOr(es, "url", VNone),
                 Or(GetOr(ev, "filename", VNone), Or(GetOr(ev, "tmpfilename", VNone), Or(web, VStr(objId))))));
      if !Hashable(key) {
        return true;
      }
      raised := false;
      if status == VStr("downloading") {
        if key !in taskMap {
          taskMap := taskMap[key := nextTask];
          nextTask := nextTask + 1;
        }
      } else if status == VStr("finished") {
        if key !in taskMap {
          taskMap := taskMap[key := nextTask];
          nextTask := nextTask + 1;
        }
        stoppedTasks := stoppedTasks + {taskMap[key]};
      } else if status == VStr("error") {
        if key in taskMap && taskMap[key] != 0 {
          stoppedTasks := stoppedTasks + {taskMap[key]};
        }
      }
    }

    /** _run_single: nothing when the flag is set (check number c);
        otherwise the engine is called, and a failure is logged. */
    method RunSingle(url: string, opts: Dict, shutdown: ShutdownEvent, signal: nat, c: nat, fails: bool)
      returns (ran: bool)
      modifies this`runs, this`errors
      ensures ran <==> !FlagAt(shutdown.flag, signal, c)
      ensures runs == if ran then old(runs) + [(url, opts)] else old(runs)
      ensures errors == if ran && fails then old(errors) + [url] else old(errors)
    {
      if FlagAt(shutdown.flag, signal, c) {
        return false;
      }
      ran := true;
      runs := runs + [(url, opts)];
      if fails {
        errors := errors + [url];
      }
    }

    /** One turn of the loop in download with parallel off: the flag
        check (number 2i), the options built, then _run_single (check
        2i + 1). stop is the loop's break, raised the exception _build_opts
        lets out. */
    method DownloadStep(jobs: seq<(string, Dict)>, i: nat, shutdown: ShutdownEvent, signal: nat, fails: set<nat>)
      returns (stop: bool, raised: bool)
      requires i < |jobs|
      modifies this`runs, this`errors
      ensures var build := Builder(baseOpts, owner);
        && (stop <==> FlagAt(shutdown.flag, signal, 2 * i) || build(jobs[i].1).None?)
        && (raised <==> RaisesAt(jobs, build, shutdown.flag, signal, i))
        && (Proceeds(jobs, build, shutdown.flag, signal, i) ==>
              runs == old(runs) + [(jobs[i].0, build(jobs[i].1).value)]
              && errors == old(errors) + (if i in fails then [jobs[i].0] else []))
        && (!Proceeds(jobs, build, shutdown.flag, signal, i) ==> runs == old(runs) && errors == old(errors))
    {
      if FlagAt(shutdown.flag, signal, 2 * i) {
        return true, false;
      }
      var opts := BuildOpts(baseOpts, jobs[i].1, owner);
      if opts.None? {
        return true, true;
      }
      var ran := RunSingle(jobs[i].0, opts.value, shutdown, signal, 2 * i + 1, i in fails);
      stop, raised := false, false;
    }

    /** download with parallel off: jobs in order, each behind the flag
        check, the options built, then _run_single. fails holds the jobs
        whose engine call raises; raised is the exception _build_opts lets
        out of the loop. */
    method DownloadSequential(jobs: seq<(string, Dict)>, shutdown: ShutdownEvent, signal: nat, fails: set<nat>)
      returns (raised: bool)
      modifies this`runs, this`errors
      ensures var m := Reached(jobs, Builder(baseOpts, owner), shutdown.flag, signal, 0);
        runs == old(runs) + Runs(jobs, Builder(baseOpts, owner), m)
        && errors == old(errors) + Failed(jobs, fails, m)
        && raised == RaisesAt(jobs, Builder(baseOpts, owner), shutdown.flag, signal, m)
    {
      ghost var set0 := shutdown.flag;
      ghost var build := Builder(baseOpts, owner);
      ghost var m := Reached(jobs, build, set0, signal, 0);
      ghost var skipped := false;
      var i := 0;
      while i < |jobs|
        invariant 0 <= i <= |jobs| && shutdown.flag == set0 && build == Builder(baseOpts, owner)
        invariant !skipped ==> i <= m && Reached(jobs, build, set0, signal, i) == m
        invariant skipped ==> i == m + 1 && m < |jobs| && build(jobs[m].1).Some? && FlagAt(set0, signal, 2 * m + 1)
        invariant runs == old(runs) + Runs(jobs, build, if skipped then m else i)
        invariant errors == old(errors) + Failed(jobs, fails, if skipped then m else i)
      {
        var stop, raisedHere := DownloadStep(jobs, i, shutdown, signal, fails);
        if stop {
          SequentialStops(jobs, build, set0, signal, i, m, skipped, raisedHere);
          return raisedHere;
        }
        SequentialGoesOn(jobs, build, set0, signal, i, m, skipped);
        if !Proceeds(jobs, build, set0, signal, i) {
          skipped := true;
        }
        i := i + 1;
      }
      SequentialEnds(jobs, build, set0, signal, i, m, skipped);
      raised := false;
    }
  }
}
