/**
  The per-item part of the drop handler: the descriptor built for one dropped
  path (`processURL`) and the first-occurrence deduplication that the `seen`
  set performs over a whole drop.

  The filesystem stat, the security-scoped bookmark call and the conversion of
  a legacy filename into a file URL are operating-system calls; they are
  oracle functions carried in `Env`.
 */
module DropItems {
  import opened Wrappers

  /** Opaque security-scoped bookmark data. */
  type Token = seq<bv8>

  /** What one drop sees of its surroundings. */
  datatype Env = Env(
    containerRoot: string,                    // ~/Library/Containers/<bundle id>, as a path string
    tmpPath: string,                          // the temporary directory, as a path string
    isDirectoryOf: string -> Option<bool>,    // `resourceValues(forKeys: [.isDirectoryKey])`; None when it fails
    bookmarkOf: string -> Option<Token>,      // `bookmarkData(options: [.withSecurityScope], ...)`; None when it fails
    fileURLPath: string -> string,            // `URL(fileURLWithPath: name).path`
    dropStamp: string                         // the formatted clock reading naming this drop's promise directory
  )

  /** One dropped item: the map `{path, apple-bookmark, isDirectory, fromPromise}`. */
  datatype Item = Item(path: string, bookmark: Option<Token>, isDirectory: bool, fromPromise: bool)

  /** The prefix test of `path.hasPrefix(root)`, on code points: a plain
      prefix, not a path-component prefix. (Swift compares grapheme clusters
      up to canonical equivalence; this compares `char`s one by one.) */
  predicate HasPrefix(s: string, prefix: string)
    ensures HasPrefix(s, prefix) <==> |prefix| <= |s| && s == prefix + s[|prefix|..]
  {
    |prefix| <= |s| && s[..|prefix|] == prefix
  }

  /** Anything written after a string has that string as a prefix. */
  lemma HasPrefixOfAppend(prefix: string, rest: string)
    ensures HasPrefix(prefix + rest, prefix)
  {
    assert (prefix + rest)[..|prefix|] == prefix;
  }

  /** A prefix of a prefix is a prefix. */
  lemma HasPrefixTransitive(s: string, mid: string, prefix: string)
    requires HasPrefix(s, mid) && HasPrefix(mid, prefix)
    ensures HasPrefix(s, prefix)
  {
    assert s[..|prefix|] == s[..|mid|][..|prefix|];
  }

  /** The path lies in the app's own container or in the temporary directory.
      The test is textual: an empty root puts every path inside, and a path
      shorter than both roots is never inside. */
  predicate IsInsideContainer(env: Env, path: string)
    ensures env.containerRoot == [] || env.tmpPath == [] ==> IsInsideContainer(env, path)
    ensures IsInsideContainer(env, path) ==> |env.containerRoot| <= |path| || |env.tmpPath| <= |path|
  {
    HasPrefix(path, env.containerRoot) || HasPrefix(path, env.tmpPath)
  }


  /** The descriptor `processURL` builds for a path it has not seen before. */
  function Describe(env: Env, path: string, fromPromise: bool): (r: Item)
    ensures r.path == path && r.fromPromise == fromPromise
    ensures r.isDirectory <==> env.isDirectoryOf(path) == Some(true)
    ensures IsInsideContainer(env, path) ==> r.bookmark == None
    ensures !IsInsideContainer(env, path) ==> r.bookmark == env.bookmarkOf(path)
  {
    var bookmark := if IsInsideContainer(env, path) then None else env.bookmarkOf(path);
    Item(path, bookmark, env.isDirectoryOf(path).GetOr(false), fromPromise)
  }

  /** Every path spelled as the container root or the temporary directory
      followed by anything counts as inside, so its descriptor carries no
      bookmark. */
  lemma UnderRootIsInside(env: Env, rest: string, fromPromise: bool)
    ensures IsInsideContainer(env, env.containerRoot + rest)
    ensures IsInsideContainer(env, env.tmpPath + rest)
    ensures Describe(env, env.containerRoot + rest, fromPromise).bookmark == None
    ensures Describe(env, env.tmpPath + rest, fromPromise).bookmark == None
  {
    HasPrefixOfAppend(env.containerRoot, rest);
    HasPrefixOfAppend(env.tmpPath, rest);
  }

  /** `processURL`: claim the path in `seen`; a repeat yields nothing, a new
      path yields its descriptor. The closure's captured `seen` set is threaded
      through as an in and an out parameter. */
  method ProcessURL(env: Env, path: string, fromPromise: bool, seen: set<string>)
    returns (item: Option<Item>, seen': set<string>)
    ensures seen' == seen + {path}
    ensures item.None? <==> path in seen
    ensures item.Some? ==> item.value == Describe(env, path, fromPromise)
  {
    var isNew := path !in seen;
    seen' := seen + {path};
    if !isNew {
      return None, seen';
    }
    var isDirectory := env.isDirectoryOf(path).GetOr(false);
    var bmData: Option<Token>;
    if IsInsideContainer(env, path) {
      bmData := None;
    } else {
      bmData := env.bookmarkOf(path);
    }
    item := Some(Item(path, bmData, isDirectory, fromPromise));
  }

  /** The elements of a sequence, as a set. */
  function Elems<T>(s: seq<T>): set<T> {
    set x | x in s
  }

  /** The paths of a batch, as a set. */
  function PathSet(items: seq<Item>): set<string> {
    set it | it in items :: it.path
  }

  /** No element occurs twice. */
  predicate NoDuplicates<T(==)>(s: seq<T>) {
    forall i, j :: 0 <= i < j < |s| ==> s[i] != s[j]
  }

  /** No two items share a path. */
  predicate UniquePaths(items: seq<Item>) {
    forall i, j :: 0 <= i < j < |items| ==> items[i].path != items[j].path
  }

  /** Reference definition of a sequential dedup-and-enrich pass: the paths
      are processed in order and the first occurrence of each path is kept. */
  function Enrich(env: Env, paths: seq<string>, fromPromise: bool): seq<Item>
    decreases |paths|
  {
    if paths == [] then []
    else
      var init := paths[..|paths| - 1];
      var p := paths[|paths| - 1];
      Enrich(env, init, fromPromise) + (if p in init then [] else [Describe(env, p, fromPromise)])
  }

  /** One more path: it yields a descriptor exactly when it is new. */
  lemma EnrichSnoc(env: Env, paths: seq<string>, p: string, fromPromise: bool)
    ensures Enrich(env, paths + [p], fromPromise)
      == Enrich(env, paths, fromPromise) + (if p in paths then [] else [Describe(env, p, fromPromise)])
    ensures Elems(paths + [p]) == Elems(paths) + {p}
  {
    assert (paths + [p])[..|paths|] == paths;
  }

  /** `compactMap { $0 }`: the present values, in order. */
  function Somes<T>(s: seq<Option<T>>): (r: seq<T>)
    ensures |r| <= |s|
    ensures forall i :: 0 <= i < |s| && s[i].Some? ==> s[i].value in r
    ensures forall k :: 0 <= k < |r| ==> Some(r[k]) in s
    decreases |s|
  {
    if s == [] then []
    else
      var last := s[|s| - 1];
      Somes(s[..|s| - 1]) + (if last.Some? then [last.value] else [])
  }

  lemma SomesSnoc<T>(s: seq<Option<T>>, x: Option<T>)
    ensures Somes(s + [x]) == Somes(s) + (if x.Some? then [x.value] else [])
  {
    assert (s + [x])[..|s|] == s;
  }

  /** Compaction distributes over concatenation; with `SomesSnoc` this fixes
      the order and the multiplicity of the kept values. */
  lemma {:induction false} SomesAppend<T>(a: seq<Option<T>>, b: seq<Option<T>>)
    ensures Somes(a + b) == Somes(a) + Somes(b)
    decreases |b|
  {
    if b == [] {
      assert a + b == a;
    } else {
      var init := b[..|b| - 1];
      var x := b[|b| - 1];
      assert b == init + [x];
      assert a + b == (a + init) + [x];
      SomesAppend(a, init);
      SomesSnoc(a + init, x);
      SomesSnoc(init, x);
    }
  }

  lemma PathSetAppend(a: seq<Item>, b: seq<Item>)
    ensures PathSet(a + b) == PathSet(a) + PathSet(b)
  {
    assert forall it :: it in a + b <==> it in a || it in b;
  }

  /** Only duplicates are dropped: the delivered paths are exactly the input paths. */
  lemma {:induction false} EnrichPaths(env: Env, paths: seq<string>, fromPromise: bool)
    ensures PathSet(Enrich(env, paths, fromPromise)) == Elems(paths)
    decreases |paths|
  {
    if paths != [] {
      var init := paths[..|paths| - 1];
      var p := paths[|paths| - 1];
      assert paths == init + [p];
      EnrichPaths(env, init, fromPromise);
      var tail := if p in init then [] else [Describe(env, p, fromPromise)];
      PathSetAppend(Enrich(env, init, fromPromise), tail);
      assert Elems(paths) == Elems(init) + {p};
    }
  }

  /** No two delivered items share a path. */
  lemma {:induction false} EnrichUnique(env: Env, paths: seq<string>, fromPromise: bool)
    ensures UniquePaths(Enrich(env, paths, fromPromise))
    decreases |paths|
  {
    if paths != [] {
      var init := paths[..|paths| - 1];
      var p := paths[|paths| - 1];
      var prev := Enrich(env, init, fromPromise);
      EnrichUnique(env, init, fromPromise);
      if p !in init {
        EnrichPaths(env, init, fromPromise);
        assert forall i :: 0 <= i < |prev| ==> prev[i].path in PathSet(prev);
        var r := Enrich(env, paths, fromPromise);
        assert r == prev + [Describe(env, p, fromPromise)];
      }
    }
  }

  /** Every delivered item is the descriptor of its own path, with the pass's
      `fromPromise` flag. */
  lemma {:induction false} EnrichDescribes(env: Env, paths: seq<string>, fromPromise: bool)
    ensures forall it :: it in Enrich(env, paths, fromPromise) ==> it == Describe(env, it.path, fromPromise)
    decreases |paths|
  {
    if paths != [] {
      EnrichDescribes(env, paths[..|paths| - 1], fromPromise);
    }
  }

  /** At most one item per input path, and one per input path exactly when
      the input repeats no path. */
  lemma {:induction false} EnrichLength(env: Env, paths: seq<string>, fromPromise: bool)
    ensures |Enrich(env, paths, fromPromise)| <= |paths|
    ensures |Enrich(env, paths, fromPromise)| == |paths| <==> NoDuplicates(paths)
    decreases |paths|
  {
    if paths != [] {
      var init := paths[..|paths| - 1];
      var p := paths[|paths| - 1];
      EnrichLength(env, init, fromPromise);
      if p in init {
        var k :| 0 <= k < |init| && init[k] == p;
        assert paths[k] == paths[|paths| - 1];
      } else if NoDuplicates(init) {
        assert NoDuplicates(paths) by {
          forall i, j | 0 <= i < j < |paths| ensures paths[i] != paths[j] {
            if j < |paths| - 1 {
              assert paths[i] == init[i] && paths[j] == init[j];
            } else {
              assert paths[i] == init[i];
            }
          }
        }
      } else {
        var i, j :| 0 <= i < j < |init| && init[i] == init[j];
        assert paths[i] == paths[j];
      }
    }
  }
}
