/** A stand-in for the file system of one OpenSCAD engine instance
    (Emscripten's `FS`), as far as the worker uses it: `stat`, `mkdir`,
    `writeFile` and `readFile`. Paths are resolved against the root, and
    repeated or trailing slashes do not matter. */
module EngineFs {
  import opened Base
  import opened Strings

  /** The non-empty segments of a split path. */
  function NonEmpty(parts: seq<string>): (r: seq<string>)
    ensures forall i :: 0 <= i < |r| ==> r[i] != ""
  {
    if |parts| == 0 then []
    else NonEmpty(parts[..|parts| - 1]) + (if parts[|parts| - 1] == "" then [] else [parts[|parts| - 1]])
  }

  lemma {:induction false} NonEmptyAppend(a: seq<string>, b: seq<string>)
    ensures NonEmpty(a + b) == NonEmpty(a) + NonEmpty(b)
    decreases |b|
  {
    if |b| > 0 {
      var b' := b[..|b| - 1];
      assert (a + b)[..|a + b| - 1] == a + b';
      NonEmptyAppend(a, b');
    } else {
      assert a + b == a;
    }
  }

  lemma NonEmptySnoc(parts: seq<string>, last: string)
    ensures NonEmpty(parts + [last]) == NonEmpty(parts) + (if last == "" then [] else [last])
  {
    assert (parts + [last])[..|parts|] == parts;
  }

  /** The absolute name under which the engine keeps a path. */
  function Canon(path: string): string {
    "/" + Join(NonEmpty(Split(path, '/')), "/")
  }

  /** The empty path resolves to the root. */
  lemma CanonEmpty()
    ensures Canon("") == "/"
  {
    assert Split("", '/') == [""];
    assert NonEmpty([""]) == [];
  }

  lemma {:induction false} NonEmptyAll(parts: seq<string>)
    requires forall i :: 0 <= i < |parts| ==> parts[i] != ""
    ensures NonEmpty(parts) == parts
  {
    if |parts| > 0 {
      NonEmptyAll(parts[..|parts| - 1]);
    }
  }

  /** Splitting joined segments that hold no separator gives them back. */
  lemma {:induction false} SplitJoin(parts: seq<string>, sep: char)
    requires |parts| >= 1
    requires forall i :: 0 <= i < |parts| ==> sep !in parts[i]
    ensures Split(Join(parts, [sep]), sep) == parts
  {
    if |parts| == 1 {
      SplitNoSep(parts[0], sep);
    } else {
      var init, last := parts[..|parts| - 1], parts[|parts| - 1];
      assert Join(parts, [sep]) == Join(init, [sep]) + [sep] + last;
      assert forall i :: 0 <= i < |init| ==> init[i] == parts[i];
      SplitJoin(init, sep);
      SplitAppend(Join(init, [sep]), last, sep);
      assert parts == init + [last];
    }
  }

  /** The absolute name of a path depends only on its non-empty segments. */
  lemma CanonOfSplit(path: string, parts: seq<string>)
    requires Split(path, '/') == parts
    ensures Canon(path) == "/" + Join(NonEmpty(parts), "/")
  {
  }

  /** A relative path made of non-empty segments without slashes is named
      by the same segments under the root. */
  lemma CanonRelative(parts: seq<string>)
    requires |parts| >= 1
    requires forall i :: 0 <= i < |parts| ==> parts[i] != "" && '/' !in parts[i]
    ensures Canon(Join(parts, "/")) == "/" + Join(parts, "/")
  {
    SplitJoin(parts, '/');
    NonEmptyAll(parts);
    CanonOfSplit(Join(parts, "/"), parts);
  }

  /** The same path written with its leading slash already has its
      absolute name. */
  lemma CanonAbsolute(parts: seq<string>)
    requires |parts| >= 1
    requires forall i :: 0 <= i < |parts| ==> parts[i] != "" && '/' !in parts[i]
    ensures Canon("/" + Join(parts, "/")) == "/" + Join(parts, "/")
  {
    SplitAbsolute(parts);
    NonEmptyLeading(parts);
    NonEmptyAll(parts);
    CanonOfSplit("/" + Join(parts, "/"), [""] + parts);
  }

  /** Segments joined under a leading slash split into an empty first part
      and the segments. */
  lemma SplitAbsolute(parts: seq<string>)
    requires |parts| >= 1
    requires forall i :: 0 <= i < |parts| ==> '/' !in parts[i]
    ensures Split("/" + Join(parts, "/"), '/') == [""] + parts
  {
    var full := [""] + parts;
    var j := Join(full, "/");
    JoinCons("", parts, "/");
    assert "" + "/" + Join(parts, "/") == "/" + Join(parts, "/");
    assert forall i :: 0 < i < |full| ==> full[i] == parts[i - 1];
    SplitJoin(full, '/');
    assert Split(j, '/') == full;
  }

  lemma NonEmptyLeading(parts: seq<string>)
    ensures NonEmpty([""] + parts) == NonEmpty(parts)
  {
    NonEmptyAppend([""], parts);
    assert NonEmpty([""]) == [];
    assert [] + NonEmpty(parts) == NonEmpty(parts);
  }

  /** A single segment names `/segment`, with or without the leading slash. */
  lemma CanonOne(a: string)
    requires a != "" && '/' !in a
    ensures Canon(a) == "/" + a && Canon("/" + a) == "/" + a
  {
    CanonRelative([a]);
    CanonAbsolute([a]);
  }

  /** Two segments name `/first/second`, with or without the leading slash. */
  lemma CanonTwo(a: string, b: string)
    requires a != "" && '/' !in a && b != "" && '/' !in b
    ensures Canon(a + "/" + b) == "/" + (a + "/" + b) && Canon("/" + a + "/" + b) == "/" + a + "/" + b
  {
    var r := a + "/" + b;
    assert Join([a, b], "/") == r by {
      assert [a, b][..1] == [a];
    }
    CanonRelative([a, b]);
    CanonAbsolute([a, b]);
    assert "/" + a + "/" + b == "/" + r;
  }

  /** The directory part of a path: `path.split("/")`, last segment popped,
      joined again with `/`. */
  function ParentDir(path: string): string {
    var parts := Split(path, '/');
    Join(parts[..|parts| - 1], "/")
  }

  /** A path with a slash is its parent directory, a slash and its last
      segment; a path without one has no parent directory. */
  lemma ParentDirSplits(path: string)
    ensures var parts := Split(path, '/');
      && ('/' in path ==> path == ParentDir(path) + "/" + parts[|parts| - 1])
      && ('/' !in path ==> ParentDir(path) == "")
      && '/' !in parts[|parts| - 1]
  {
    JoinSplit(path, '/');
  }

  /** `"/" + parts[0] + "/" + parts[1] + ...` up to `k` segments: the
      `currentPath` of `createDirectoryRecusive` after `k` steps. */
  function PathPrefix(parts: seq<string>, k: nat): string
    requires k <= |parts|
  {
    if k == 0 then "" else PathPrefix(parts, k - 1) + "/" + parts[k - 1]
  }

  /** The first `n` accumulated prefixes of the segments `parts`. */
  function Prefixes(parts: seq<string>, n: nat): (r: seq<string>)
    requires n <= |parts|
    ensures |r| == n
  {
    if n == 0 then [] else Prefixes(parts, n - 1) + [PathPrefix(parts, n)]
  }

  lemma {:induction false} PrefixesAt(parts: seq<string>, n: nat, i: nat)
    requires i < n <= |parts|
    ensures Prefixes(parts, n)[i] == PathPrefix(parts, i + 1)
  {
    if i < n - 1 {
      PrefixesAt(parts, n - 1, i);
    }
  }

  /** Every accumulated prefix of a path. */
  function DirPrefixes(path: string): (r: seq<string>)
    ensures |r| == |Split(path, '/')|
  {
    var parts := Split(path, '/');
    Prefixes(parts, |parts|)
  }

  /** Entry `i` is the prefix of `i + 1` segments. */
  lemma DirPrefixAt(path: string, i: nat)
    requires i < |Split(path, '/')|
    ensures DirPrefixes(path)[i] == PathPrefix(Split(path, '/'), i) + "/" + Split(path, '/')[i]
  {
    var parts := Split(path, '/');
    PrefixesAt(parts, |parts|, i);
  }

  lemma {:induction false} SplitAppend(a: string, b: string, sep: char)
    requires sep !in b
    ensures Split(a + [sep] + b, sep) == Split(a, sep) + [b]
    decreases |b|
  {
    if |b| == 0 {
      assert (a + [sep] + b)[..|a|] == a;
    } else {
      var b' := b[..|b| - 1];
      var s := a + [sep] + b;
      assert s[..|s| - 1] == a + [sep] + b';
      assert b == b' + [b[|b| - 1]];
      assert s[|s| - 1] == b[|b| - 1] != sep;
      SplitAppend(a, b', sep);
    }
  }

  /** One more segment adds one more part to the split. */
  lemma PrefixSplit(parts: seq<string>, k: nat)
    requires 0 < k <= |parts| && '/' !in parts[k - 1]
    ensures NonEmpty(Split(PathPrefix(parts, k), '/'))
      == NonEmpty(Split(PathPrefix(parts, k - 1), '/')) + (if parts[k - 1] == "" then [] else [parts[k - 1]])
  {
    assert PathPrefix(parts, k) == PathPrefix(parts, k - 1) + ['/'] + parts[k - 1];
    SplitAppend(PathPrefix(parts, k - 1), parts[k - 1], '/');
    NonEmptySnoc(Split(PathPrefix(parts, k - 1), '/'), parts[k - 1]);
  }

  lemma {:induction false} PrefixSegments(parts: seq<string>, k: nat)
    requires k <= |parts|
    requires forall i :: 0 <= i < |parts| ==> '/' !in parts[i]
    ensures NonEmpty(Split(PathPrefix(parts, k), '/')) == NonEmpty(parts[..k])
  {
    if k > 0 {
      PrefixSegments(parts, k - 1);
      PrefixSplit(parts, k);
      assert parts[..k][..k - 1] == parts[..k - 1];
    }
  }

  /** The last accumulated prefix names the path itself. */
  lemma LastPrefixIsPath(path: string)
    ensures Canon(DirPrefixes(path)[|DirPrefixes(path)| - 1]) == Canon(path)
  {
    var parts := Split(path, '/');
    PrefixesAt(parts, |parts|, |parts| - 1);
    SplitParts(path, '/');
    PrefixSegments(parts, |parts|);
    assert parts[..|parts|] == parts;
  }

  /** The names the engine creates for a list of prefixes. */
  function CanonSet(ps: seq<string>): set<string> {
    if |ps| == 0 then {} else CanonSet(ps[..|ps| - 1]) + {Canon(ps[|ps| - 1])}
  }

  /** Once the names of all prefixes are present, each prefix and the path
      itself resolve to a present name. */
  lemma PrefixesNamed(path: string, names: set<string>)
    requires CanonSet(DirPrefixes(path)) <= names
    ensures forall i :: 0 <= i < |DirPrefixes(path)| ==> Canon(DirPrefixes(path)[i]) in names
    ensures Canon(path) in names
  {
    CanonSetMembers(DirPrefixes(path));
    LastPrefixIsPath(path);
  }

  /** The `mkdir` calls the loop makes over the prefixes `ps`, starting from
      the names `existing`: a prefix is created only when neither it nor an
      earlier prefix resolved to an existing name. */
  function MkdirCalls(ps: seq<string>, existing: set<string>): seq<string> {
    if |ps| == 0 then []
    else
      var init := ps[..|ps| - 1];
      MkdirCalls(init, existing)
      + (if Canon(ps[|ps| - 1]) in existing + CanonSet(init) then [] else [ps[|ps| - 1]])
  }

  /** One more prefix: its name joins the set, and it is created unless it
      already resolved to an existing name. */
  lemma MkdirCallsStep(ps: seq<string>, i: nat, existing: set<string>)
    requires i < |ps|
    ensures CanonSet(ps[..i + 1]) == CanonSet(ps[..i]) + {Canon(ps[i])}
    ensures MkdirCalls(ps[..i + 1], existing) == MkdirCalls(ps[..i], existing)
      + (if Canon(ps[i]) in existing + CanonSet(ps[..i]) then [] else [ps[i]])
  {
    assert ps[..i + 1][..i] == ps[..i];
  }

  /** When every prefix already exists, no directory is created: a second
      call with the same path performs no `mkdir`. */
  lemma {:induction false} MkdirCallsNone(ps: seq<string>, existing: set<string>)
    requires forall i :: 0 <= i < |ps| ==> Canon(ps[i]) in existing
    ensures MkdirCalls(ps, existing) == []
  {
    if |ps| > 0 {
      MkdirCallsNone(ps[..|ps| - 1], existing);
    }
  }

  lemma {:induction false} CanonSetMembers(ps: seq<string>)
    ensures forall i :: 0 <= i < |ps| ==> Canon(ps[i]) in CanonSet(ps)
  {
    if |ps| > 0 {
      var init := ps[..|ps| - 1];
      CanonSetMembers(init);
      forall i | 0 <= i < |ps| ensures Canon(ps[i]) in CanonSet(ps) {
        if i < |init| {
          assert ps[i] == init[i];
        }
      }
    }
  }

  /** No `mkdir` names an existing directory, and no name is created twice. */
  lemma {:induction false} MkdirCallsFresh(ps: seq<string>, existing: set<string>)
    ensures forall i :: 0 <= i < |MkdirCalls(ps, existing)| ==> Canon(MkdirCalls(ps, existing)[i]) !in existing
    ensures forall i, j :: 0 <= i < j < |MkdirCalls(ps, existing)| ==>
      Canon(MkdirCalls(ps, existing)[i]) != Canon(MkdirCalls(ps, existing)[j])
    ensures forall i :: 0 <= i < |MkdirCalls(ps, existing)| ==> Canon(MkdirCalls(ps, existing)[i]) in CanonSet(ps)
  {
    if |ps| > 0 {
      var init := ps[..|ps| - 1];
      var last := ps[|ps| - 1];
      MkdirCallsFresh(init, existing);
      var before := MkdirCalls(init, existing);
      var calls := MkdirCalls(ps, existing);
      if Canon(last) !in existing + CanonSet(init) {
        assert calls == before + [last];
        forall i | 0 <= i < |calls| ensures Canon(calls[i]) !in existing {
          if i < |before| {
            assert calls[i] == before[i];
            assert Canon(before[i]) !in existing;
          } else {
            assert calls[i] == last;
          }
        }
        forall i, j | 0 <= i < j < |calls| ensures Canon(calls[i]) != Canon(calls[j]) {
          assert calls[i] == before[i];
          if j == |before| {
            assert calls[j] == last;
            assert Canon(before[i]) in CanonSet(init);
          } else {
            assert calls[j] == before[j];
          }
        }
      } else {
        assert calls == before;
      }
    }
  }

  /** The engine's file system: directories and file contents by absolute
      name; the root directory always exists. */
  class Engine {
    var dirs: set<string>
    var files: map<string, seq<byte>>
    /** The paths given to `mkdir`, in call order. */
    ghost var mkdirs: seq<string>

    constructor()
      ensures dirs == {"/"} && files == map[] && mkdirs == []
    {
      dirs := {"/"};
      files := map[];
      mkdirs := [];
    }

    function Names(): set<string>
      reads this
    {
      dirs + files.Keys
    }

    /** `FS.stat(path)` succeeds. */
    predicate Stat(path: string)
      reads this
    {
      Canon(path) in Names()
    }

    /** `FS.mkdir(path)`, which fails on an existing name. */
    method Mkdir(path: string)
      requires !Stat(path)
      modifies this
      ensures dirs == old(dirs) + {Canon(path)} && files == old(files)
      ensures mkdirs == old(mkdirs) + [path]
    {
      dirs := dirs + {Canon(path)};
      mkdirs := mkdirs + [path];
    }

    /** `FS.writeFile(path, data)`: the file is created or overwritten. */
    method WriteFile(path: string, data: seq<byte>)
      modifies this
      ensures files == old(files)[Canon(path) := data]
      ensures dirs == old(dirs) && mkdirs == old(mkdirs)
    {
      files := files[Canon(path) := data];
    }

    /** `FS.readFile(path)`, or `None` where it throws. */
    method ReadFile(path: string) returns (r: Option<seq<byte>>)
      ensures r == if Canon(path) in files then Some(files[Canon(path)]) else None
    {
      if Canon(path) in files {
        r := Some(files[Canon(path)]);
      } else {
        r := None;
      }
    }
  }
}
