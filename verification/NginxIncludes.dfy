/**
 Includes form a graph, cycles and all. When nothing went wrong the files read are exactly those the
 main file reaches, each once; whatever went wrong, no more than the limit and nothing out of reach.
 */
module NginxIncludes {
  import opened Basics
  import opened NginxSyntax
  import opened ConfigReaders
  import opened Nginx

  // ── the graph ──────────────────────────────────────────────────────────────

  /** A block seen only for its includes: the patterns the parser reaches, in order. */
  datatype Outline = Outline(patterns: seq<string>, used: nat, failed: bool)

  function Onward(patterns: seq<string>, used: nat, o: Outline): Outline {
    Outline(patterns + o.patterns, used + o.used, o.failed)
  }

  function OutlineOf(tokens: seq<Token>, words: seq<string>): Outline
    decreases |tokens|
  {
    if tokens == [] then Outline([], 0, false) else
    match tokens[0]
    case Word(text) => Onward([], 1, OutlineOf(tokens[1..], words + [text]))
    case Punct(ch) =>
      if ch == ';' then Onward(if IsInclude(words) then [words[1]] else [], 1, OutlineOf(tokens[1..], []))
      else if ch == '{' then
        if words == [] then Outline([], 0, true) else
        var inner := OutlineOf(tokens[1..], []);
        if inner.failed then inner else
        Onward(inner.patterns, inner.used + 2, OutlineOf(From(tokens, inner.used + 2), []))
      else if ch == '}' then Outline([], 0, false)
      else Onward([], 1, OutlineOf(tokens[1..], words))
  }

  function MatchesOf(fs: FileSystem, pattern: string, dir: string): seq<string> {
    match fs.glob(pattern, dir)
    case Matches(paths) => paths
    case _ => []
  }

  /** The resolved names of everything these patterns match. */
  function Roots(fs: FileSystem, dir: string, patterns: seq<string>): set<string> {
    if patterns == [] then {} else
    Names(fs, MatchesOf(fs, patterns[0], dir)) + Roots(fs, dir, patterns[1..])
  }

  function Names(fs: FileSystem, paths: seq<string>): set<string> { set p | p in paths :: fs.abs(p) }

  /** The resolved names of the files that the file at path includes. */
  function Includes(fs: FileSystem, path: string): set<string> {
    match fs.stat(fs.abs(path))
    case File(_, Some(data)) => Roots(fs, fs.dir(path), OutlineOf(Tokens(data), []).patterns)
    case _ => {}
  }

  /** Paths that resolve alike include alike, however they are spelled. */
  ghost predicate Lexical(fs: FileSystem) {
    forall p, q :: fs.abs(p) == fs.abs(q) ==> Includes(fs, p) == Includes(fs, q)
  }

  /** The file resolved as `from` includes the one resolved as `to`. */
  ghost predicate Edge(fs: FileSystem, from: string, to: string) {
    exists path :: fs.abs(path) == from && to in Includes(fs, path)
  }

  ghost predicate IsRoute(fs: FileSystem, route: seq<string>) {
    route != [] && forall i :: 0 <= i < |route| - 1 ==> Edge(fs, route[i], route[i + 1])
  }

  ghost predicate Reachable(fs: FileSystem, from: string, to: string) {
    exists route :: IsRoute(fs, route) && route[0] == from && route[|route| - 1] == to
  }

  lemma ReachesItself(fs: FileSystem, name: string)
    ensures Reachable(fs, name, name)
  {
    assert IsRoute(fs, [name]);
  }

  lemma ReachesThrough(fs: FileSystem, from: string, via: string, to: string)
    requires Edge(fs, from, via) && Reachable(fs, via, to)
    ensures Reachable(fs, from, to)
  {
    var route :| IsRoute(fs, route) && route[0] == via && route[|route| - 1] == to;
    var longer := [from] + route;
    forall i | 0 <= i < |longer| - 1 ensures Edge(fs, longer[i], longer[i + 1]) {
      if i > 0 {
        assert Edge(fs, route[i - 1], route[i]);
      }
    }
    assert IsRoute(fs, longer);
  }

  // ── what one stretch of parsing explores ───────────────────────────────────

  function Regular(fs: FileSystem, names: set<string>): set<string> { set q | q in names && fs.stat(q).File? }

  /** Everything the file resolved as q includes has been visited. */
  ghost predicate Closed(fs: FileSystem, visited: set<string>, q: string) {
    forall path :: fs.abs(path) == q ==> Includes(fs, path) <= visited
  }

  /** From st to st' the parser visited only names reachable from the roots. If it noted no problem it
      read each regular one once; and if it did not fail either, it visited the roots and all that the
      newly visited include. */
  ghost predicate Explores(fs: FileSystem, st: State, st': State, roots: set<string>, ok: bool) {
    && st.visited <= st'.visited
    && st.problems <= st'.problems
    && (forall q :: q in st'.visited && q !in st.visited ==> exists r :: r in roots && Reachable(fs, r, q))
    && (st'.problems == st.problems ==>
          st'.filesRead == st.filesRead + |Regular(fs, st'.visited - st.visited)|)
    && (ok && st'.problems == st.problems ==>
          && roots <= st'.visited
          && forall q :: q in st'.visited && q !in st.visited ==> Closed(fs, st'.visited, q))
  }

  lemma ExploresNothing(fs: FileSystem, st: State, ok: bool)
    ensures Explores(fs, st, st, {}, ok)
  {
    assert Regular(fs, st.visited - st.visited) == {};
  }

  lemma ExploresMore(fs: FileSystem, st: State, st': State, roots: set<string>, more: set<string>, ok: bool)
    requires Explores(fs, st, st', roots, ok) && roots <= more
    ensures Explores(fs, st, st', more, false)
  {
  }

  lemma ExploresBoth(fs: FileSystem, a: State, b: State, c: State, m: set<string>, n: set<string>, ok: bool, ok': bool)
    requires Explores(fs, a, b, m, ok) && Explores(fs, b, c, n, ok')
    ensures Explores(fs, a, c, m + n, ok && ok')
  {
    if c.problems == a.problems {
      assert b.problems == a.problems;
      var first, second := Regular(fs, b.visited - a.visited), Regular(fs, c.visited - b.visited);
      assert Regular(fs, c.visited - a.visited) == first + second && first !! second;
    }
  }

  lemma ExploresThenNotes(fs: FileSystem, a: State, b: State, c: State, m: set<string>, ok: bool)
    requires Explores(fs, a, b, m, ok)
    requires c.visited == b.visited && b.problems < c.problems
    ensures Explores(fs, a, c, m, true)
  {
  }

  // ── the parser explores ────────────────────────────────────────────────────

  lemma {:induction false} OutlineAgrees(fs: FileSystem, b: Bounds, st: State, tokens: seq<Token>, words: seq<string>, file: string, depth: nat)
    requires depth <= b.maxDepth
    ensures var p := ParseBlock(fs, b, st, tokens, words, file, depth);
      p.error.Some? == OutlineOf(tokens, words).failed && (p.error.None? ==> p.used == OutlineOf(tokens, words).used)
    decreases |tokens|
  {
    if tokens != [] {
      match tokens[0]
      case Word(text) => OutlineAgrees(fs, b, st, tokens[1..], words + [text], file, depth);
      case Punct(ch) =>
        if ch == ';' {
          OutlineAgrees(fs, b, ParseSimple(fs, b, st, words, file, depth).0, tokens[1..], [], file, depth);
        } else if ch == '{' {
          OutlineAgrees(fs, b, st, tokens[1..], [], file, depth);
          var inner := ParseBlock(fs, b, st, tokens[1..], [], file, depth);
          if inner.error.None? {
            OutlineAgrees(fs, b, inner.st, From(tokens, inner.used + 2), [], file, depth);
          }
        } else if ch != '}' {
          OutlineAgrees(fs, b, st, tokens[1..], words, file, depth);
        }
    }
  }

  lemma {:induction false} RootsConcat(fs: FileSystem, dir: string, p: seq<string>, q: seq<string>)
    ensures Roots(fs, dir, p + q) == Roots(fs, dir, p) + Roots(fs, dir, q)
  {
    if p == [] {
      assert p + q == q;
    } else {
      assert (p + q)[1..] == p[1..] + q;
      RootsConcat(fs, dir, p[1..], q);
    }
  }

  /** Reading one file explores it and nothing else. */
  lemma ReadExplores(fs: FileSystem, b: Bounds, st: State, path: string)
    ensures var (st', data) := ReadFrom(fs, b, st, path);
      && st.visited <= st'.visited && st.problems <= st'.problems
      && st'.visited == st.visited + {fs.abs(path)}
      && (data.None? ==> Explores(fs, st, st', {fs.abs(path)}, true))
      && (data.Some? ==>
            && fs.abs(path) !in st.visited && st'.problems == st.problems
            && fs.stat(fs.abs(path)).File? && fs.stat(fs.abs(path)).data == data
            && st'.filesRead == st.filesRead + 1)
  {
    var (st', data) := ReadFrom(fs, b, st, path);
    var name := fs.abs(path);
    ReachesItself(fs, name);
    if name !in st.visited {
      assert st'.visited - st.visited == {name};
      assert Regular(fs, {name}) == if fs.stat(name).File? then {name} else {};
    } else {
      assert st'.visited - st.visited == {};
      assert Regular(fs, {}) == {};
    }
  }

  lemma {:induction false} FileExplores(fs: FileSystem, b: Bounds, st: State, path: string, depth: nat)
    requires Lexical(fs) && depth <= b.maxDepth + 1
    ensures var r := ParseFile(fs, b, st, path, depth);
      Explores(fs, st, r.st, {fs.abs(path)}, r.error.None?)
    decreases b.maxDepth + 1 - depth, 2, 0
  {
    if depth > b.maxDepth {
      ExploresNothing(fs, st, false);
      ExploresMore(fs, st, st, {}, {fs.abs(path)}, false);
    } else {
      ReadExplores(fs, b, st, path);
      var (st', data) := ReadFrom(fs, b, st, path);
      if data.Some? {
        BlockExplores(fs, b, st', Tokens(data.value), [], path, depth);
        var r := ParseBlock(fs, b, st', Tokens(data.value), [], path, depth);
        FileClosed(fs, st, st', r.st, path, r.error.None?);
      }
    }
  }

  lemma ReachesFromFile(fs: FileSystem, path: string, q: string)
    requires exists r :: r in Includes(fs, path) && Reachable(fs, r, q)
    ensures Reachable(fs, fs.abs(path), q)
  {
    hide Reachable, Includes;
    var r :| r in Includes(fs, path) && Reachable(fs, r, q);
    assert Edge(fs, fs.abs(path), r);
    ReachesThrough(fs, fs.abs(path), r, q);
  }

  /** A file just marked, and then everything it includes. */
  lemma FileClosed(fs: FileSystem, st: State, st': State, st'': State, path: string, ok: bool)
    requires Lexical(fs)
    requires fs.abs(path) !in st.visited && fs.stat(fs.abs(path)).File?
    requires st'.visited == st.visited + {fs.abs(path)} && st'.problems == st.problems && st'.filesRead == st.filesRead + 1
    requires Explores(fs, st', st'', Includes(fs, path), ok)
    ensures Explores(fs, st, st'', {fs.abs(path)}, ok)
  {
    hide Reachable, Includes;
    var name := fs.abs(path);
    ReachesItself(fs, name);
    forall q | q in st''.visited && q !in st.visited ensures Reachable(fs, name, q) {
      if q != name {
        ReachesFromFile(fs, path, q);
      }
    }
    if st''.problems == st.problems {
      var rest := Regular(fs, st''.visited - st'.visited);
      assert Regular(fs, st''.visited - st.visited) == rest + {name};
    }
  }

  lemma {:induction false} MatchesExplore(fs: FileSystem, b: Bounds, st: State, paths: seq<string>, depth: nat)
    requires Lexical(fs) && depth <= b.maxDepth
    ensures Explores(fs, st, ParseMatches(fs, b, st, paths, depth).0, Names(fs, paths), true)
    decreases b.maxDepth + 1 - depth, 0, |paths|
  {
    if paths == [] {
      ExploresNothing(fs, st, true);
      assert Names(fs, paths) == {};
    } else {
      FileExplores(fs, b, st, paths[0], depth + 1);
      var r := ParseFile(fs, b, st, paths[0], depth + 1);
      var st' := if r.error.Some? then r.st.Note(paths[0], ParseFailed(r.error.value)) else r.st;
      if r.error.Some? {
        ExploresThenNotes(fs, st, r.st, st', {fs.abs(paths[0])}, false);
      }
      MatchesExplore(fs, b, st', paths[1..], depth);
      var end := ParseMatches(fs, b, st', paths[1..], depth).0;
      ExploresBoth(fs, st, st', end, {fs.abs(paths[0])}, Names(fs, paths[1..]), true, true);
      assert Names(fs, paths) == {fs.abs(paths[0])} + Names(fs, paths[1..]);
    }
  }

  lemma {:induction false} SimpleExplores(fs: FileSystem, b: Bounds, st: State, words: seq<string>, file: string, depth: nat)
    requires Lexical(fs) && depth <= b.maxDepth
    ensures Explores(fs, st, ParseSimple(fs, b, st, words, file, depth).0,
                     Roots(fs, fs.dir(file), if IsInclude(words) then [words[1]] else []), true)
    decreases b.maxDepth + 1 - depth, 1, 0
  {
    if IsInclude(words) {
      var (st', paths) := ExpandFrom(fs, st, words[1], fs.dir(file));
      MatchesExplore(fs, b, st', paths, depth);
      assert Roots(fs, fs.dir(file), [words[1]]) == Names(fs, MatchesOf(fs, words[1], fs.dir(file)));
      ExploresNothing(fs, st, true);
      if st' != st {
        ExploresThenNotes(fs, st, st, st', {}, true);
      }
      ExploresBoth(fs, st, st', ParseMatches(fs, b, st', paths, depth).0, {}, Names(fs, paths), true, true);
      assert {} + Names(fs, paths) == Names(fs, paths);
    } else {
      ExploresNothing(fs, st, true);
    }
  }

  lemma {:induction false} BlockExplores(fs: FileSystem, b: Bounds, st: State, tokens: seq<Token>, words: seq<string>, file: string, depth: nat)
    requires Lexical(fs) && depth <= b.maxDepth
    ensures var r := ParseBlock(fs, b, st, tokens, words, file, depth);
      Explores(fs, st, r.st, Roots(fs, fs.dir(file), OutlineOf(tokens, words).patterns), r.error.None?)
    decreases b.maxDepth + 1 - depth, 1, |tokens|
  {
    hide Explores;
    if tokens == [] || tokens[0] == Punct('}') || (tokens[0] == Punct('{') && words == []) {
      ExploresNothing(fs, st, true);
      ExploresNothing(fs, st, false);
    } else {
      match tokens[0]
      case Word(text) =>
        BlockExplores(fs, b, st, tokens[1..], words + [text], file, depth);
        PassesOver(OutlineOf(tokens[1..], words + [text]));
      case Punct(ch) =>
        if ch == ';' {
          BlockExploresStatement(fs, b, st, tokens, words, file, depth);
        } else if ch == '{' {
          BlockExploresBlock(fs, b, st, tokens, words, file, depth);
        } else {
          BlockExplores(fs, b, st, tokens[1..], words, file, depth);
          PassesOver(OutlineOf(tokens[1..], words));
        }
    }
  }

  lemma PassesOver(o: Outline)
    ensures Onward([], 1, o).patterns == o.patterns
  {
  }

  lemma {:induction false} BlockExploresStatement(fs: FileSystem, b: Bounds, st: State, tokens: seq<Token>, words: seq<string>, file: string, depth: nat)
    requires Lexical(fs) && depth <= b.maxDepth && tokens != [] && tokens[0] == Punct(';')
    ensures var r := ParseBlock(fs, b, st, tokens, words, file, depth);
      Explores(fs, st, r.st, Roots(fs, fs.dir(file), OutlineOf(tokens, words).patterns), r.error.None?)
    decreases b.maxDepth + 1 - depth, 1, |tokens|, 0
  {
    hide Explores;
    var dir := fs.dir(file);
    var patterns := if IsInclude(words) then [words[1]] else [];
    SimpleExplores(fs, b, st, words, file, depth);
    var st' := ParseSimple(fs, b, st, words, file, depth).0;
    BlockExplores(fs, b, st', tokens[1..], [], file, depth);
    var rest := ParseBlock(fs, b, st', tokens[1..], [], file, depth);
    var more := OutlineOf(tokens[1..], []).patterns;
    RootsConcat(fs, dir, patterns, more);
    ExploresBoth(fs, st, st', rest.st, Roots(fs, dir, patterns), Roots(fs, dir, more), true, rest.error.None?);
  }

  lemma {:induction false} BlockExploresBlock(fs: FileSystem, b: Bounds, st: State, tokens: seq<Token>, words: seq<string>, file: string, depth: nat)
    requires Lexical(fs) && depth <= b.maxDepth && tokens != [] && tokens[0] == Punct('{') && words != []
    ensures var r := ParseBlock(fs, b, st, tokens, words, file, depth);
      Explores(fs, st, r.st, Roots(fs, fs.dir(file), OutlineOf(tokens, words).patterns), r.error.None?)
    decreases b.maxDepth + 1 - depth, 1, |tokens|, 0
  {
    hide Explores, ParseBlock;
    var dir := fs.dir(file);
    BlockExplores(fs, b, st, tokens[1..], [], file, depth);
    OutlineAgrees(fs, b, st, tokens[1..], [], file, depth);
    OpenUnfolds(fs, b, st, tokens, words, file, depth);
    var inner := ParseBlock(fs, b, st, tokens[1..], [], file, depth);
    if inner.error.None? {
      var tail := From(tokens, inner.used + 2);
      BlockExplores(fs, b, inner.st, tail, [], file, depth);
      var rest := ParseBlock(fs, b, inner.st, tail, [], file, depth);
      var first, more := OutlineOf(tokens[1..], []).patterns, OutlineOf(tail, []).patterns;
      RootsConcat(fs, dir, first, more);
      ExploresBoth(fs, st, inner.st, rest.st, Roots(fs, dir, first), Roots(fs, dir, more), true, rest.error.None?);
    }
  }

  // ── limits, whatever goes wrong ────────────────────────────────────────────

  /** Each file read is a name newly visited, and none is read past the limit. */
  ghost predicate Within(b: Bounds, st: State, st': State) {
    && st.visited <= st'.visited
    && st.filesRead <= st'.filesRead
    && (st.filesRead < st'.filesRead ==> st'.filesRead <= b.maxFiles)
    && st'.filesRead - st.filesRead <= |st'.visited| - |st.visited|
  }

  lemma ReadWithin(fs: FileSystem, b: Bounds, st: State, path: string)
    ensures Within(b, st, ReadFrom(fs, b, st, path).0)
  {
  }

  lemma {:induction false} FileWithin(fs: FileSystem, b: Bounds, st: State, path: string, depth: nat)
    requires depth <= b.maxDepth + 1
    ensures Within(b, st, ParseFile(fs, b, st, path, depth).st)
    decreases b.maxDepth + 1 - depth, 2, 0
  {
    if depth <= b.maxDepth {
      ReadWithin(fs, b, st, path);
      var (st', data) := ReadFrom(fs, b, st, path);
      if data.Some? {
        BlockWithin(fs, b, st', Tokens(data.value), [], path, depth);
      }
    }
  }

  lemma {:induction false} MatchesWithin(fs: FileSystem, b: Bounds, st: State, paths: seq<string>, depth: nat)
    requires depth <= b.maxDepth
    ensures Within(b, st, ParseMatches(fs, b, st, paths, depth).0)
    decreases b.maxDepth + 1 - depth, 0, |paths|
  {
    if paths != [] {
      FileWithin(fs, b, st, paths[0], depth + 1);
      var r := ParseFile(fs, b, st, paths[0], depth + 1);
      var st' := if r.error.Some? then r.st.Note(paths[0], ParseFailed(r.error.value)) else r.st;
      MatchesWithin(fs, b, st', paths[1..], depth);
    }
  }

  lemma {:induction false} BlockWithin(fs: FileSystem, b: Bounds, st: State, tokens: seq<Token>, words: seq<string>, file: string, depth: nat)
    requires depth <= b.maxDepth
    ensures Within(b, st, ParseBlock(fs, b, st, tokens, words, file, depth).st)
    decreases b.maxDepth + 1 - depth, 1, |tokens|
  {
    if tokens != [] {
      match tokens[0]
      case Word(text) =>
        BlockWithin(fs, b, st, tokens[1..], words + [text], file, depth);
      case Punct(ch) =>
        if ch == ';' {
          if IsInclude(words) {
            var (st', paths) := ExpandFrom(fs, st, words[1], fs.dir(file));
            MatchesWithin(fs, b, st', paths, depth);
          }
          BlockWithin(fs, b, ParseSimple(fs, b, st, words, file, depth).0, tokens[1..], [], file, depth);
        } else if ch == '{' {
          BlockWithin(fs, b, st, tokens[1..], [], file, depth);
          var inner := ParseBlock(fs, b, st, tokens[1..], [], file, depth);
          if inner.error.None? {
            BlockWithin(fs, b, inner.st, From(tokens, inner.used + 2), [], file, depth);
          }
        } else if ch != '}' {
          BlockWithin(fs, b, st, tokens[1..], words, file, depth);
        }
    }
  }

  // ── the main results ───────────────────────────────────────────────────────

  /** A set that holds the start of a route and is closed under includes holds its end. */
  lemma {:induction false} RouteStaysInside(fs: FileSystem, route: seq<string>, visited: set<string>)
    requires IsRoute(fs, route) && route[0] in visited
    requires forall q :: q in visited ==> Closed(fs, visited, q)
    ensures route[|route| - 1] in visited
    decreases |route|
  {
    if |route| > 1 {
      assert Edge(fs, route[0], route[1]);
      var path :| fs.abs(path) == route[0] && route[1] in Includes(fs, path);
      assert Closed(fs, visited, route[0]);
      assert route[1..][0] == route[1];
      forall i | 0 <= i < |route[1..]| - 1 ensures Edge(fs, route[1..][i], route[1..][i + 1]) {
        assert Edge(fs, route[i + 1], route[i + 2]);
      }
      RouteStaysInside(fs, route[1..], visited);
    }
  }

  /** Whatever the include graph, if the parser reports no error and noted no problem, the names it
      visited are exactly those reachable from the main file, and it read each regular one once. In
      every case what it visited is reachable, and it reads no more than the limit and no name twice. */
  lemma IncludeClosure(fs: FileSystem, b: Bounds, main: string)
    requires Lexical(fs)
    ensures var r := ParseFile(fs, b, NOTHING_READ, main, 0);
      && r.st.filesRead <= b.maxFiles && r.st.filesRead <= |r.st.visited|
      && (forall q :: q in r.st.visited ==> Reachable(fs, fs.abs(main), q))
      && (r.error.None? && r.st.problems == [] ==>
            && (forall q :: q in r.st.visited <==> Reachable(fs, fs.abs(main), q))
            && r.st.filesRead == |Regular(fs, r.st.visited)|)
  {
    FileExplores(fs, b, NOTHING_READ, main, 0);
    FileWithin(fs, b, NOTHING_READ, main, 0);
    var r := ParseFile(fs, b, NOTHING_READ, main, 0);
    assert r.st.visited - {} == r.st.visited;
    if r.error.None? && r.st.problems == [] {
      forall q | Reachable(fs, fs.abs(main), q) ensures q in r.st.visited {
        var route :| IsRoute(fs, route) && route[0] == fs.abs(main) && route[|route| - 1] == q;
        RouteStaysInside(fs, route, r.st.visited);
      }
    }
  }
}
