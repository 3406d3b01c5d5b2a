/**
 * The dependency closure of server reflection: a breadth-first search that skips the files which
 * earlier requests of the same stream have sent.
 */
module Reflection {
  import opened Common

  /** Files are identified by their names. */
  type File = string

  type Graph = map<File, seq<File>>

  /** The dependencies of a registered file are registered. */
  ghost predicate IsGraph(g: Graph) {
    forall f, d :: f in g && d in g[f] ==> d in g
  }

  // ---------------------------------------------------------------- Reachability

  /** A path of dependencies, from its first file to its last. */
  ghost predicate IsPath(g: Graph, path: seq<File>) {
    && path != []
    && (forall k :: 0 <= k < |path| ==> path[k] in g)
    && forall k :: 0 <= k < |path| - 1 ==> path[k + 1] in g[path[k]]
  }

  ghost predicate PathBetween(g: Graph, path: seq<File>, from: File, to: File) {
    IsPath(g, path) && path[0] == from && path[|path| - 1] == to
  }

  ghost predicate Reaches(g: Graph, from: File, to: File) {
    exists path :: PathBetween(g, path, from, to)
  }

  /** A set of files that holds the dependencies of its members. */
  ghost predicate Closed(g: Graph, s: set<File>) {
    s <= g.Keys && forall f, d :: f in s && d in g[f] ==> d in s
  }

  lemma ReachesSelf(g: Graph, f: File)
    requires f in g
    ensures Reaches(g, f, f)
  {
    assert PathBetween(g, [f], f, f);
  }

  lemma ReachesStep(g: Graph, from: File, via: File, to: File)
    requires IsGraph(g) && Reaches(g, from, via) && via in g && to in g[via]
    ensures Reaches(g, from, to)
  {
    var path :| PathBetween(g, path, from, via);
    assert PathBetween(g, path + [to], from, to);
  }

  /** A closed set holds everything reachable from its members. */
  lemma {:induction false} ClosedHoldsPath(g: Graph, s: set<File>, path: seq<File>)
    requires Closed(g, s) && IsPath(g, path) && path[0] in s
    ensures path[|path| - 1] in s
    decreases |path|
  {
    if |path| > 1 {
      ClosedHoldsPath(g, s, path[1..]);
    }
  }

  lemma ClosedHoldsReachable(g: Graph, s: set<File>, from: File, to: File)
    requires Closed(g, s) && from in s && Reaches(g, from, to)
    ensures to in s
  {
    var path :| PathBetween(g, path, from, to);
    ClosedHoldsPath(g, s, path);
  }

  ghost function Reachable(g: Graph, from: File): set<File> {
    set f | f in g && Reaches(g, from, f)
  }

  // ---------------------------------------------------------------- The search

  predicate NoDuplicates(files: seq<File>) {
    forall i, j :: 0 <= i < j < |files| ==> files[i] != files[j]
  }

  ghost function Elements(files: seq<File>): set<File> {
    set f | f in files
  }

  /** Every file but the first is imported by one before it. */
  ghost predicate EachImported(g: Graph, files: seq<File>) {
    forall k :: 0 < k < |files| ==> ImportedBefore(g, files, k, files[k])
  }

  ghost predicate ImportedBefore(g: Graph, files: seq<File>, k: nat, f: File) {
    exists j :: 0 <= j < k && j < |files| && files[j] in g && f in g[files[j]]
  }

  /** The queue holds files that the root reaches, each imported by a file sent already. */
  ghost predicate Discovered(g: Graph, root: File, files: seq<File>, queue: seq<File>) {
    forall f :: f in queue ==> f in g && Reaches(g, root, f) && ImportedBefore(g, files, |files|, f)
  }

  /** The state of a search that began with `start` already seen. */
  ghost predicate Searching(
      g: Graph, root: File, start: set<File>, names: set<File>, files: seq<File>, queue: seq<File>)
  {
    && root in names && start <= names <= g.Keys
    && files != [] && files[0] == root && NoDuplicates(files) && EachImported(g, files)
    && Discovered(g, root, files, queue)
    && (forall f :: f in files <==> f == root || (f in names && f !in start))
    && (forall f :: f in files ==> Reaches(g, root, f))
    && (forall f, d :: f in names && d in g[f] ==> d in names || d in queue)
  }

  lemma SearchBegins(g: Graph, root: File, start: set<File>)
    requires IsGraph(g) && root in g && Closed(g, start)
    ensures Searching(g, root, start, start + {root}, [root], g[root])
  {
    ReachesSelf(g, root);
    forall d | d in g[root]
      ensures Reaches(g, root, d) && ImportedBefore(g, [root], 1, d)
    {
      ReachesStep(g, root, root, d);
      assert d in g[[root][0]];
    }
  }

  lemma SearchSkips(g: Graph, root: File, start: set<File>, names: set<File>, files: seq<File>, queue: seq<File>)
    requires Searching(g, root, start, names, files, queue) && queue != [] && queue[0] in names
    ensures Searching(g, root, start, names, files, queue[1..])
  {
    assert queue == [queue[0]] + queue[1..];
  }

  lemma ImportsStay(g: Graph, files: seq<File>, file: File)
    requires EachImported(g, files) && ImportedBefore(g, files, |files|, file)
    ensures EachImported(g, files + [file])
    ensures forall f :: ImportedBefore(g, files, |files|, f) ==> ImportedBefore(g, files + [file], |files| + 1, f)
  {
    var after := files + [file];
    forall k, f | 0 <= k <= |files| && ImportedBefore(g, files, k, f)
      ensures ImportedBefore(g, after, k, f) && ImportedBefore(g, after, |after|, f)
    {
      var j :| 0 <= j < k && j < |files| && files[j] in g && f in g[files[j]];
      assert after[j] == files[j];
    }
  }

  lemma DiscoveredByVisit(g: Graph, root: File, files: seq<File>, file: File, rest: seq<File>)
    requires IsGraph(g) && EachImported(g, files) && Discovered(g, root, files, [file] + rest)
    ensures EachImported(g, files + [file]) && Discovered(g, root, files + [file], rest + g[file])
  {
    assert file in [file] + rest;
    ImportsStay(g, files, file);
    var after := files + [file];
    forall f | f in rest + g[file]
      ensures f in g && Reaches(g, root, f) && ImportedBefore(g, after, |after|, f)
    {
      if f in rest {
        assert f in [file] + rest;
      } else {
        ReachesStep(g, root, file, f);
        assert f in g[after[|files|]];
      }
    }
  }

  lemma SearchVisits(g: Graph, root: File, start: set<File>, names: set<File>, files: seq<File>, queue: seq<File>)
    requires IsGraph(g) && Searching(g, root, start, names, files, queue) && queue != [] && queue[0] !in names
    ensures Searching(g, root, start, names + {queue[0]}, files + [queue[0]], queue[1..] + g[queue[0]])
  {
    var file, rest := queue[0], queue[1..];
    assert queue == [file] + rest;
    DiscoveredByVisit(g, root, files, file, rest);
    assert NoDuplicates(files + [file]);
    forall f, d | f in names + {file} && d in g[f]
      ensures d in names + {file} || d in rest + g[file]
    {
      assert f in names ==> d in names || d in queue;
    }
  }

  lemma SearchEnds(g: Graph, root: File, start: set<File>, names: set<File>, files: seq<File>)
    requires Searching(g, root, start, names, files, [])
    ensures Closed(g, names) && names == start + Reachable(g, root)
    ensures Elements(files) == {root} + (Reachable(g, root) - start)
  {
    assert root in files;
    forall f | f in Reachable(g, root)
      ensures f in names
    {
      ClosedHoldsReachable(g, names, root, f);
    }
    assert forall f :: f in names && f !in start ==> f in files;
  }

  // ---------------------------------------------------------------- The order of the search

  /** A file that the root reaches in so many steps. */
  ghost predicate ReachesIn(g: Graph, root: File, f: File, steps: nat) {
    exists path :: PathBetween(g, path, root, f) && |path| == steps + 1
  }

  predicate Ascending(levels: seq<nat>) {
    forall i, j :: 0 <= i < j < |levels| ==> levels[i] <= levels[j]
  }

  /** One of these files is `f`, and its level is at most `n`. */
  predicate Listed(f: File, n: nat, files: seq<File>, levels: seq<nat>)
    requires |files| == |levels|
  {
    exists k :: 0 <= k < |files| && files[k] == f && levels[k] <= n
  }

  /** Each of these files is reached in as many steps as its level says. */
  ghost predicate AtLevels(g: Graph, root: File, files: seq<File>, levels: seq<nat>) {
    && |files| == |levels|
    && forall k :: 0 <= k < |files| ==> files[k] in g && ReachesIn(g, root, files[k], levels[k])
  }

  /** What a file imports is sent, or waits, at most one level further on, unless it was seen before. */
  ghost predicate ImportsListed(
      g: Graph, root: File, start: set<File>, file: File, level: nat,
      files: seq<File>, levels: seq<nat>, queue: seq<File>, waiting: seq<nat>)
    requires file in g && |files| == |levels| && |queue| == |waiting|
  {
    forall f :: f in g[file] && f !in start && f != root ==>
      Listed(f, level + 1, files, levels) || Listed(f, level + 1, queue, waiting)
  }

  /** The levels of the files sent and of those waiting, which are at most one apart. */
  ghost predicate Levelled(
      g: Graph, root: File, files: seq<File>, levels: seq<nat>, queue: seq<File>, waiting: seq<nat>)
  {
    && AtLevels(g, root, files, levels) && AtLevels(g, root, queue, waiting)
    && Ascending(levels) && Ascending(waiting)
    && files != [] && files[0] == root && levels[0] == 0
    && (queue != [] ==> levels[|levels| - 1] <= waiting[0] && waiting[|waiting| - 1] <= waiting[0] + 1)
  }

  ghost predicate AllListed(
      g: Graph, root: File, start: set<File>, files: seq<File>, levels: seq<nat>, queue: seq<File>, waiting: seq<nat>)
    requires |files| == |levels| && |queue| == |waiting|
  {
    forall k :: 0 <= k < |files| ==>
      && files[k] in g
      && ImportsListed(g, root, start, files[k], levels[k], files, levels, queue, waiting)
  }

  ghost predicate Layered(
      g: Graph, root: File, start: set<File>, files: seq<File>, levels: seq<nat>, queue: seq<File>, waiting: seq<nat>)
  {
    && Levelled(g, root, files, levels, queue, waiting)
    && AllListed(g, root, start, files, levels, queue, waiting)
  }

  function Same(n: nat, level: nat): (levels: seq<nat>)
    ensures |levels| == n && forall k :: 0 <= k < n ==> levels[k] == level
  {
    seq(n, k => level)
  }

  lemma ImportsAreNext(g: Graph, root: File, file: File, level: nat)
    requires IsGraph(g) && file in g && ReachesIn(g, root, file, level)
    ensures AtLevels(g, root, g[file], Same(|g[file]|, level + 1))
  {
    var path :| PathBetween(g, path, root, file) && |path| == level + 1;
    forall k | 0 <= k < |g[file]|
      ensures ReachesIn(g, root, g[file][k], level + 1)
    {
      assert PathBetween(g, path + [g[file][k]], root, g[file][k]);
    }
  }

  lemma LayersBegin(g: Graph, root: File, start: set<File>)
    requires IsGraph(g) && root in g
    ensures Layered(g, root, start, [root], [0], g[root], Same(|g[root]|, 1))
  {
    assert PathBetween(g, [root], root, root);
    ImportsAreNext(g, root, root, 0);
    var waiting := Same(|g[root]|, 1);
    forall f | f in g[root]
      ensures Listed(f, 1, g[root], waiting)
    {
      var k :| 0 <= k < |g[root]| && g[root][k] == f;
      assert waiting[k] <= 1;
    }
  }

  lemma ListedStays(f: File, n: nat, files: seq<File>, levels: seq<nat>, more: seq<File>, further: seq<nat>)
    requires |files| == |levels| && |more| == |further|
    ensures Listed(f, n, files, levels) || Listed(f, n, more, further) ==> Listed(f, n, files + more, levels + further)
  {
    var all, depths := files + more, levels + further;
    if Listed(f, n, files, levels) {
      var k :| 0 <= k < |files| && files[k] == f && levels[k] <= n;
      assert all[k] == f && depths[k] <= n;
    } else if Listed(f, n, more, further) {
      var k :| 0 <= k < |more| && more[k] == f && further[k] <= n;
      assert all[|files| + k] == f && depths[|files| + k] <= n;
    }
  }

  /** The head of the queue is what is listed, or it is in the rest. */
  lemma ListedInRest(f: File, n: nat, queue: seq<File>, waiting: seq<nat>)
    requires |queue| == |waiting| && queue != [] && Listed(f, n, queue, waiting)
    ensures (f == queue[0] && waiting[0] <= n) || Listed(f, n, queue[1..], waiting[1..])
  {
    var k :| 0 <= k < |queue| && queue[k] == f && waiting[k] <= n;
    if k > 0 {
      assert queue[1..][k - 1] == f && waiting[1..][k - 1] <= n;
    }
  }

  /** Skipping a file that was sent, or seen before, leaves what is listed. */
  lemma SkippedIsListed(
      f: File, start: set<File>, n: nat, files: seq<File>, levels: seq<nat>, queue: seq<File>, waiting: seq<nat>)
    requires |files| == |levels| && |queue| == |waiting| && Ascending(levels)
    requires queue != [] && files != [] && levels[|levels| - 1] <= waiting[0]
    requires f !in start && (queue[0] in files || queue[0] in start)
    requires Listed(f, n, files, levels) || Listed(f, n, queue, waiting)
    ensures Listed(f, n, files, levels) || Listed(f, n, queue[1..], waiting[1..])
  {
    if Listed(f, n, queue, waiting) {
      ListedInRest(f, n, queue, waiting);
      if f == queue[0] && waiting[0] <= n {
        var j :| 0 <= j < |files| && files[j] == f;
        assert levels[j] <= n;
      }
    }
  }

  lemma LayersSkip(
      g: Graph, root: File, start: set<File>, files: seq<File>, levels: seq<nat>, queue: seq<File>, waiting: seq<nat>)
    requires Layered(g, root, start, files, levels, queue, waiting)
    requires queue != [] && (queue[0] in files || queue[0] in start)
    ensures Layered(g, root, start, files, levels, queue[1..], waiting[1..])
  {
    assert Ascending(waiting[1..]) && AtLevels(g, root, queue[1..], waiting[1..]);
    forall k | 0 <= k < |files|
      ensures ImportsListed(g, root, start, files[k], levels[k], files, levels, queue[1..], waiting[1..])
    {
      forall f | f in g[files[k]] && f !in start && f != root
        ensures Listed(f, levels[k] + 1, files, levels) || Listed(f, levels[k] + 1, queue[1..], waiting[1..])
      {
        SkippedIsListed(f, start, levels[k] + 1, files, levels, queue, waiting);
      }
    }
  }

  lemma AscendingAppend(a: seq<nat>, b: seq<nat>)
    requires Ascending(a) && Ascending(b) && (a != [] && b != [] ==> a[|a| - 1] <= b[0])
    ensures Ascending(a + b)
  {
    forall i, j | 0 <= i < j < |a + b|
      ensures (a + b)[i] <= (a + b)[j]
    {
      if i < |a| <= j {
        assert a[i] <= a[|a| - 1] && b[0] <= b[j - |a|];
      }
    }
  }

  lemma AtLevelsAppend(g: Graph, root: File, a: seq<File>, inA: seq<nat>, b: seq<File>, inB: seq<nat>)
    requires AtLevels(g, root, a, inA) && AtLevels(g, root, b, inB)
    ensures AtLevels(g, root, a + b, inA + inB)
  {
    var all, levels := a + b, inA + inB;
    forall k | 0 <= k < |all|
      ensures all[k] in g && ReachesIn(g, root, all[k], levels[k])
    {
      if k >= |a| {
        assert all[k] == b[k - |a|] && levels[k] == inB[k - |a|];
      }
    }
  }

  /** The imports of the head join the queue, one level further on. */
  lemma QueueVisit(g: Graph, root: File, queue: seq<File>, waiting: seq<nat>)
    requires IsGraph(g) && AtLevels(g, root, queue, waiting) && Ascending(waiting)
    requires queue != [] && waiting[|waiting| - 1] <= waiting[0] + 1
    ensures var queue', waiting' := queue[1..] + g[queue[0]], waiting[1..] + Same(|g[queue[0]]|, waiting[0] + 1);
      && AtLevels(g, root, queue', waiting') && Ascending(waiting')
      && (queue' != [] ==> waiting[0] <= waiting'[0] && waiting'[|waiting'| - 1] <= waiting'[0] + 1)
  {
    var file, level := queue[0], waiting[0];
    var next := Same(|g[file]|, level + 1);
    ImportsAreNext(g, root, file, level);
    assert AtLevels(g, root, queue[1..], waiting[1..]);
    AtLevelsAppend(g, root, queue[1..], waiting[1..], g[file], next);
    AscendingAppend(waiting[1..], next);
  }

  lemma ImportsVisit(
      g: Graph, root: File, start: set<File>, files: seq<File>, levels: seq<nat>, queue: seq<File>, waiting: seq<nat>,
      k: nat)
    requires Layered(g, root, start, files, levels, queue, waiting) && queue != [] && k <= |files|
    ensures var file, level := queue[0], waiting[0];
      && (files + [file])[k] in g
      && ImportsListed(
           g, root, start, (files + [file])[k], (levels + [level])[k], files + [file], levels + [level],
           queue[1..] + g[file], waiting[1..] + Same(|g[file]|, level + 1))
  {
    var file, level := queue[0], waiting[0];
    forall f | f in g[(files + [file])[k]] && f !in start && f != root
      ensures Listed(f, (levels + [level])[k] + 1, files + [file], levels + [level])
        || Listed(f, (levels + [level])[k] + 1, queue[1..] + g[file], waiting[1..] + Same(|g[file]|, level + 1))
    {
      StillListed(g, root, start, files, levels, queue, waiting, k, f);
    }
  }

  lemma LevelsVisit(g: Graph, root: File, files: seq<File>, levels: seq<nat>, queue: seq<File>, waiting: seq<nat>)
    requires IsGraph(g) && Levelled(g, root, files, levels, queue, waiting) && queue != []
    ensures var file, level := queue[0], waiting[0];
      Levelled(
        g, root, files + [file], levels + [level], queue[1..] + g[file], waiting[1..] + Same(|g[file]|, level + 1))
  {
    AscendingAppend(levels, [waiting[0]]);
    AtLevelsAppend(g, root, files, levels, [queue[0]], [waiting[0]]);
    QueueVisit(g, root, queue, waiting);
  }

  lemma LayersVisit(
      g: Graph, root: File, start: set<File>, files: seq<File>, levels: seq<nat>, queue: seq<File>, waiting: seq<nat>)
    requires IsGraph(g) && Layered(g, root, start, files, levels, queue, waiting) && queue != []
    ensures var file, level := queue[0], waiting[0];
      Layered(
        g, root, start, files + [file], levels + [level],
        queue[1..] + g[file], waiting[1..] + Same(|g[file]|, level + 1))
  {
    LevelsVisit(g, root, files, levels, queue, waiting);
    forall k | 0 <= k < |files| + 1
      ensures (files + [queue[0]])[k] in g
      ensures ImportsListed(
        g, root, start, (files + [queue[0]])[k], (levels + [waiting[0]])[k],
        files + [queue[0]], levels + [waiting[0]],
        queue[1..] + g[queue[0]], waiting[1..] + Same(|g[queue[0]]|, waiting[0] + 1))
    {
      ImportsVisit(g, root, start, files, levels, queue, waiting, k);
    }
  }

  lemma StillListed(
      g: Graph, root: File, start: set<File>, files: seq<File>, levels: seq<nat>, queue: seq<File>, waiting: seq<nat>,
      k: nat, f: File)
    requires Layered(g, root, start, files, levels, queue, waiting) && queue != [] && k <= |files|
    requires f !in start && f != root && f in g[(files + [queue[0]])[k]]
    ensures var file, n := queue[0], (levels + [waiting[0]])[k] + 1;
      || Listed(f, n, files + [file], levels + [waiting[0]])
      || Listed(f, n, queue[1..] + g[file], waiting[1..] + Same(|g[file]|, waiting[0] + 1))
  {
    var file, level, n := queue[0], waiting[0], (levels + [waiting[0]])[k] + 1;
    var next := Same(|g[file]|, level + 1);
    ListedStays(f, n, files, levels, [file], [level]);
    ListedStays(f, n, queue[1..], waiting[1..], g[file], next);
    if k == |files| {
      var j :| 0 <= j < |g[file]| && g[file][j] == f;
      assert next[j] <= n;
    } else {
      assert ImportsListed(g, root, start, files[k], levels[k], files, levels, queue, waiting);
      if Listed(f, n, queue, waiting) {
        ListedInRest(f, n, queue, waiting);
        if f == file && level <= n {
          assert [file][0] == f && [level][0] <= n;
        }
      }
    }
  }

  /** The last step of a path to a file that was not seen before is from one that was not, either. */
  lemma LastStep(g: Graph, root: File, start: set<File>, path: seq<File>, f: File) returns (via: File)
    requires Closed(g, start) && PathBetween(g, path, root, f) && f != root && f !in start
    ensures |path| > 1 && PathBetween(g, path[..|path| - 1], root, via)
    ensures via in g && f in g[via] && via !in start && via in Reachable(g, root)
  {
    var n := |path| - 1;
    via := path[n - 1];
    assert path[n - 1 + 1] in g[path[n - 1]];
    assert PathBetween(g, path[..n], root, via);
  }

  /** No path from the root is shorter than the level of a file that was sent. */
  lemma {:induction false} LevelIsDistance(
      g: Graph, root: File, start: set<File>, files: seq<File>, levels: seq<nat>, path: seq<File>, k: nat)
    requires Closed(g, start) && NoDuplicates(files) && Layered(g, root, start, files, levels, [], [])
    requires Elements(files) == {root} + (Reachable(g, root) - start)
    requires k < |files| && PathBetween(g, path, root, files[k])
    ensures levels[k] < |path|
    decreases |path|
  {
    var f := files[k];
    if f != root {
      assert f in Elements(files);
      var via := LastStep(g, root, start, path, f);
      assert via in Elements(files);
      var j :| 0 <= j < |files| && files[j] == via;
      LevelIsDistance(g, root, start, files, levels, path[..|path| - 1], j);
      assert ImportsListed(g, root, start, files[j], levels[j], files, levels, [], []);
      var i :| 0 <= i < |files| && files[i] == f && levels[i] <= levels[j] + 1;
    }
  }

  /** The distance of a file from the root: the steps of a shortest path. */
  ghost predicate IsDistance(g: Graph, root: File, f: File, distance: nat) {
    ReachesIn(g, root, f, distance) && forall path :: PathBetween(g, path, root, f) ==> |path| > distance
  }

  /** The files are in the order of their distance from the root. */
  ghost predicate NearestFirst(g: Graph, root: File, files: seq<File>, distances: seq<nat>) {
    && |distances| == |files| && Ascending(distances)
    && forall k :: 0 <= k < |files| ==> IsDistance(g, root, files[k], distances[k])
  }

  /** The search is breadth-first. */
  ghost predicate InOrder(g: Graph, root: File, files: seq<File>) {
    exists distances :: NearestFirst(g, root, files, distances)
  }

  lemma LayersAreDistances(g: Graph, root: File, start: set<File>, files: seq<File>, levels: seq<nat>)
    requires Closed(g, start) && NoDuplicates(files) && Layered(g, root, start, files, levels, [], [])
    requires Elements(files) == {root} + (Reachable(g, root) - start)
    ensures InOrder(g, root, files)
  {
    forall k, path | 0 <= k < |files| && PathBetween(g, path, root, files[k])
      ensures |path| > levels[k]
    {
      LevelIsDistance(g, root, start, files, levels, path, k);
    }
    assert NearestFirst(g, root, files, levels);
  }

  /** The files whose names are remembered for the whole of a reflection stream. */
  class Seen {
    var names: set<File>

    constructor ()
      ensures names == {}
    {
      names := {};
    }

    /**
     * `_file_descriptor_with_dependencies`, drained. On a closed set of seen files it returns the
     * root and exactly what can be reached from it and was not seen, each once and after a file
     * that imports it, the nearest first.
     */
    method WithDependencies(g: Graph, root: File) returns (files: seq<File>)
      requires IsGraph(g) && root in g && Closed(g, names)
      modifies this
      ensures files != [] && files[0] == root && NoDuplicates(files) && EachImported(g, files)
      ensures Elements(files) == {root} + (Reachable(g, root) - old(names))
      ensures names == old(names) + Reachable(g, root)
      ensures Closed(g, names)
      ensures InOrder(g, root, files)
    {
      SearchBegins(g, root, names);
      LayersBegin(g, root, names);
      ghost var levels, waiting := [0], Same(|g[root]|, 1);
      names := names + {root};
      files := [root];
      var queue := g[root];
      while queue != []
        invariant Searching(g, root, old(names), names, files, queue)
        invariant Layered(g, root, old(names), files, levels, queue, waiting)
        decreases g.Keys - names, |queue|
      {
        var file := queue[0];
        if file in names {
          SearchSkips(g, root, old(names), names, files, queue);
          LayersSkip(g, root, old(names), files, levels, queue, waiting);
          queue := queue[1..];
          waiting := waiting[1..];
          continue;
        }
        SearchVisits(g, root, old(names), names, files, queue);
        LayersVisit(g, root, old(names), files, levels, queue, waiting);
        levels, waiting := levels + [waiting[0]], waiting[1..] + Same(|g[file]|, waiting[0] + 1);
        names := names + {file};
        files := files + [file];
        queue := queue[1..] + g[file];
      }
      SearchEnds(g, root, old(names), names, files);
      assert waiting == [];
      LayersAreDistances(g, root, old(names), files, levels);
    }
  }

  // ---------------------------------------------------------------- A stream of requests

  /** A request for a file, found or not by its name or one of its symbols; or for something else. */
  datatype FileRequest = ForFile(found: Option<File>) | OtherRequest

  datatype Response = Files(files: seq<File>) | SymbolNotFound | OtherResponse

  /** The roots that the first requests of a stream have asked for. */
  function Roots(requests: seq<FileRequest>): set<File> {
    set k | 0 <= k < |requests| && requests[k].ForFile? && requests[k].found.Some? :: requests[k].found.value
  }

  ghost function ReachableFrom(g: Graph, roots: set<File>): set<File> {
    set f, r | r in roots && f in Reachable(g, r) :: f
  }

  lemma RootsSnoc(before: seq<FileRequest>, request: FileRequest)
    ensures Roots(before + [request]) == Roots(before) +
      if request.ForFile? && request.found.Some? then {request.found.value} else {}
  {
    var after := before + [request];
    assert forall j :: 0 <= j < |before| ==> after[j] == before[j];
    assert after[|before|] == request;
  }

  lemma ReachableFromSnoc(g: Graph, roots: set<File>, root: File)
    ensures ReachableFrom(g, roots + {root}) == ReachableFrom(g, roots) + Reachable(g, root)
  {
  }

  /** What each response holds, given what was asked for before it. */
  ghost predicate Answers(g: Graph, before: seq<FileRequest>, request: FileRequest, response: Response) {
    match request
    case OtherRequest => response == OtherResponse
    case ForFile(None) => response == SymbolNotFound
    case ForFile(Some(root)) =>
      && response.Files?
      && NoDuplicates(response.files) && response.files != [] && response.files[0] == root
      && Elements(response.files) == {root} + (Reachable(g, root) - ReachableFrom(g, Roots(before)))
      && InOrder(g, root, response.files)
  }

  /** `_handle_request`, on what the requests before it have sent. */
  method Answer(g: Graph, seen: Seen, request: FileRequest, ghost before: seq<FileRequest>) returns (response: Response)
    requires IsGraph(g) && (request.ForFile? && request.found.Some? ==> request.found.value in g)
    requires seen.names == ReachableFrom(g, Roots(before)) && Closed(g, seen.names)
    modifies seen
    ensures Answers(g, before, request, response)
    ensures seen.names == ReachableFrom(g, Roots(before + [request])) && Closed(g, seen.names)
  {
    RootsSnoc(before, request);
    match request
    case OtherRequest =>
      assert Roots(before + [request]) == Roots(before);
      response := OtherResponse;
    case ForFile(None) =>
      assert Roots(before + [request]) == Roots(before);
      response := SymbolNotFound;
    case ForFile(Some(root)) =>
      ReachableFromSnoc(g, Roots(before), root);
      var files := seen.WithDependencies(g, root);
      response := Files(files);
  }

  /** Over a whole stream, the files that have been sent are those reachable from a requested root. */
  method ServerReflectionInfo(g: Graph, requests: seq<FileRequest>) returns (responses: seq<Response>, seen: Seen)
    requires IsGraph(g)
    requires forall k :: 0 <= k < |requests| && requests[k].ForFile? && requests[k].found.Some? ==>
               requests[k].found.value in g
    ensures |responses| == |requests|
    ensures forall k :: 0 <= k < |requests| ==> Answers(g, requests[..k], requests[k], responses[k])
    ensures seen.names == ReachableFrom(g, Roots(requests)) && Closed(g, seen.names)
  {
    seen := new Seen();
    responses := [];
    for k := 0 to |requests|
      invariant fresh(seen) && |responses| == k
      invariant seen.names == ReachableFrom(g, Roots(requests[..k])) && Closed(g, seen.names)
      invariant forall j :: 0 <= j < k ==> Answers(g, requests[..j], requests[j], responses[j])
    {
      assert requests[..k + 1] == requests[..k] + [requests[k]];
      var response := Answer(g, seen, requests[k], requests[..k]);
      responses := responses + [response];
    }
    assert requests[..|requests|] == requests;
  }

  /** A file is sent twice on one stream only as the root of the later response. */
  lemma SentAgainOnlyAsRoot(g: Graph, requests: seq<FileRequest>, responses: seq<Response>, j: nat, k: nat, f: File)
    requires |responses| == |requests| && j < k < |requests|
    requires forall i :: 0 <= i < |requests| ==> Answers(g, requests[..i], requests[i], responses[i])
    requires responses[j].Files? && f in responses[j].files
    requires responses[k].Files? && f in responses[k].files
    requires forall i :: 0 <= i < |requests| && requests[i].ForFile? && requests[i].found.Some? ==>
               requests[i].found.value in g
    ensures f == responses[k].files[0]
  {
    assert Answers(g, requests[..j], requests[j], responses[j]);
    assert Answers(g, requests[..k], requests[k], responses[k]);
    var root := requests[j].found.value;
    assert f in Elements(responses[j].files);
    ReachesSelf(g, root);
    assert f in Reachable(g, root);
    assert requests[..k][j] == requests[j];
    assert root in Roots(requests[..k]);
    assert f in ReachableFrom(g, Roots(requests[..k]));
    assert f in Elements(responses[k].files);
  }

  /** `_resolve_registry`: the registry holds exactly what the given files can reach. */
  method ResolveRegistry(g: Graph, descs: seq<File>) returns (files: seq<File>)
    requires IsGraph(g) && forall k :: 0 <= k < |descs| ==> descs[k] in g
    ensures Elements(files) == ReachableFrom(g, Elements(descs)) && Closed(g, Elements(files))
  {
    var seen := new Seen();
    files := [];
    for k := 0 to |descs|
      invariant fresh(seen) && Closed(g, seen.names)
      invariant seen.names == ReachableFrom(g, Elements(descs[..k])) && Elements(files) == seen.names
    {
      ReachesSelf(g, descs[k]);
      assert Elements(descs[..k + 1]) == Elements(descs[..k]) + {descs[k]};
      ReachableFromSnoc(g, Elements(descs[..k]), descs[k]);
      var more := seen.WithDependencies(g, descs[k]);
      assert Elements(files + more) == Elements(files) + Elements(more);
      files := files + more;
    }
    assert descs[..|descs|] == descs;
  }
}
