/** The URL history of the terminal UI (draxon/core/history.py): a list of
    URLs kept most recent first, at most max_size long, in a JSON file. The
    file is a field here: None when it is missing or cannot be decoded, and
    otherwise the list it holds. */
module History {
  import opened Common

  const DefaultMaxSize := 10

  /** list.index(x): the position of the first occurrence. */
  function IndexOf(s: seq<string>, x: string): (i: nat)
    requires x in s
    ensures i < |s| && s[i] == x && x !in s[..i]
    decreases |s|
  {
    if s[0] == x then 0
    else
      var i := IndexOf(s[1..], x) + 1;
      assert s[..i] == [s[0]] + s[1..][..i - 1];
      i
  }

  /** list.remove(x) on a list holding x: the first occurrence goes. */
  function RemoveFirst(s: seq<string>, x: string): (r: seq<string>)
    requires x in s
    ensures |r| == |s| - 1
  {
    s[..IndexOf(s, x)] + s[IndexOf(s, x) + 1..]
  }

  /** The loaded list without url's first occurrence. */
  function Others(h: seq<string>, url: string): (r: seq<string>)
    ensures |r| <= |h|
  {
    if url in h then RemoveFirst(h, url) else h
  }

  /** Python's s[:n], a negative n counting from the end. */
  function SlicePrefix(s: seq<string>, n: int): (r: seq<string>)
    ensures 0 <= n ==> r == s[..if n < |s| then n else |s|]
    ensures n < 0 ==> r == s[..if |s| + n > 0 then |s| + n else 0]
  {
    if n >= 0 then s[..if n < |s| then n else |s|]
    else s[..if |s| + n > 0 then |s| + n else 0]
  }

  /** The list add saves: url moved (or put) in front, cut to max_size. It
      holds at most max_size entries (10 by default) and, when max_size is
      positive, starts with url. */
  function Added(h: seq<string>, url: string, maxSize: int): (r: seq<string>)
    ensures maxSize >= 0 ==> |r| <= maxSize
    ensures maxSize >= 1 ==> |r| >= 1 && r[0] == url
  {
    SlicePrefix([url] + Others(h, url), maxSize)
  }

  predicate NoDuplicates(s: seq<string>) {
    forall i, j :: 0 <= i < j < |s| ==> s[i] != s[j]
  }

  class HistoryManager {
    const maxSize: int
    /** The history file: None when missing or not decodable. */
    var file: Option<seq<string>>

    constructor(file: Option<seq<string>>, maxSize: int)
      ensures this.file == file && this.maxSize == maxSize
    {
      this.file := file;
      this.maxSize := maxSize;
    }

    /** HistoryManager(history_file) with max_size left at its default. */
    constructor WithDefaultSize(file: Option<seq<string>>)
      ensures this.file == file && this.maxSize == DefaultMaxSize
    {
      this.file := file;
      this.maxSize := DefaultMaxSize;
    }

    /** load: the file's list, or [] when there is none to read. */
    method Load() returns (h: seq<string>)
      ensures file.Some? ==> h == file.value
      ensures file.None? ==> h == []
    {
      if file.None? {
        return [];
      }
      h := file.value;
    }

    /** add: load, drop the earlier occurrence of url, insert it in front,
        save the first max_size entries. */
    method Add(url: string)
      modifies this
      ensures file == Some(Added(old(file).GetOr([]), url, maxSize))
    {
      var history := Load();
      if url in history {
        history := RemoveFirst(history, url);
      }
      history := [url] + history;
      file := Some(SlicePrefix(history, maxSize));
    }
  }

  // ---------------------------------------------------------------------
  // What add promises

  /** The saved list is url followed by the loaded list without url's
      first occurrence, in the order it had, cut to max_size. */
  lemma AddedOrder(h: seq<string>, url: string, maxSize: int)
    requires maxSize >= 1
    ensures var r, rest := Added(h, url, maxSize), Others(h, url);
      && |r| == (if maxSize < |rest| + 1 then maxSize else |rest| + 1)
      && r[0] == url
      && r[1..] == rest[..|r| - 1]
      && (url !in h ==> rest == h)
      && (url in h ==> rest == h[..IndexOf(h, url)] + h[IndexOf(h, url) + 1..])
  {
    var r, rest := Added(h, url, maxSize), Others(h, url);
    assert r == ([url] + rest)[..|r|];
  }

  /** A list without duplicates stays without duplicates. */
  lemma AddedNoDuplicates(h: seq<string>, url: string, maxSize: int)
    requires NoDuplicates(h)
    ensures NoDuplicates(Added(h, url, maxSize))
  {
    var rest := Others(h, url);
    OthersNoDuplicates(h, url);
    var full := [url] + rest;
    forall a, b | 0 <= a < b < |full| ensures full[a] != full[b] {
      assert full[b] == rest[b - 1];
      if a > 0 {
        assert full[a] == rest[a - 1];
      }
    }
    var r := Added(h, url, maxSize);
    assert r == full[..|r|];
    forall a, b | 0 <= a < b < |r| ensures r[a] != r[b] {
      assert r[a] == full[a] && r[b] == full[b];
    }
  }

  /** Dropping url's first occurrence from a list without duplicates leaves
      no url and no duplicates. */
  lemma OthersNoDuplicates(h: seq<string>, url: string)
    requires NoDuplicates(h)
    ensures url !in Others(h, url) && NoDuplicates(Others(h, url))
  {
    if url in h {
      var i := IndexOf(h, url);
      var rest := h[..i] + h[i + 1..];
      assert Others(h, url) == rest;
      forall a | 0 <= a < |rest| ensures rest[a] != url {
        DropAt(h, i, a);
      }
      forall a, b | 0 <= a < b < |rest| ensures rest[a] != rest[b] {
        DropAt(h, i, a);
        DropAt(h, i, b);
      }
    }
  }

  /** The a-th element of s without its i-th. */
  lemma DropAt(s: seq<string>, i: nat, a: nat)
    requires i < |s| && a < |s| - 1
    ensures (s[..i] + s[i + 1..])[a] == if a < i then s[a] else s[a + 1]
  {
  }

  /** Every saved entry other than url was in the loaded list. */
  lemma AddedFromLoaded(h: seq<string>, url: string, maxSize: int)
    ensures forall x :: x in Added(h, url, maxSize) ==> x == url || x in h
  {
    var rest := Others(h, url);
    forall a | 0 <= a < |rest| ensures rest[a] in h {
      if url in h {
        var i := IndexOf(h, url);
        if a < i {
          assert rest[a] == h[a];
        } else {
          assert rest[a] == h[a + 1];
        }
      }
    }
    var r := Added(h, url, maxSize);
    assert r == ([url] + rest)[..|r|];
    forall x | x in r ensures x == url || x in h {
      var i :| 0 <= i < |r| && r[i] == x;
      if i > 0 {
        assert x == rest[i - 1];
      }
    }
  }

  /** add(u) twice saves what add(u) once saves, for a max_size that is not
      negative. */
  lemma AddedIdempotent(h: seq<string>, url: string, maxSize: int)
    requires maxSize >= 0
    ensures Added(Added(h, url, maxSize), url, maxSize) == Added(h, url, maxSize)
  {
    var once := Added(h, url, maxSize);
    if once != [] {
      assert IndexOf(once, url) == 0;
      assert RemoveFirst(once, url) == once[1..];
      assert [url] + once[1..] == once;
    }
  }

  /** A negative max_size makes add cut from the end, and then adding the
      same url twice keeps shrinking the list. */
  lemma AddedNegativeShrinks(a: string, b: string)
    requires a != b
    ensures Added([b], a, -1) == [a]
    ensures Added(Added([b], a, -1), a, -1) == []
  {
    assert [a] + [b] == [a, b];
    assert IndexOf([a], a) == 0;
    assert RemoveFirst([a], a) == [];
  }
}
