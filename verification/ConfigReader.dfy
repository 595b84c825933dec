/** The files a configuration refers to, read once each, and what could not be read noted. */
module ConfigReaders {
  import opened Basics

  datatype Stat = Missing | Directory | File(size: nat, data: Option<string>)

  /** What an include pattern names: in the order they are read. */
  datatype Glob = BadPattern | NoMatch(literal: bool) | Matches(paths: seq<string>)

  /** The host's files: how paths resolve, what is there, and what patterns match. */
  datatype FileSystem = FileSystem(
    abs: string -> string,
    dir: string -> string,
    stat: string -> Stat,
    glob: (string, string) -> Glob)

  datatype Bounds = Bounds(maxFiles: nat, maxFileBytes: nat, maxDepth: nat)

  datatype ParseError = IncludesTooDeep | OrphanBlock

  datatype Why = StoppedAtLimit | StatFailed | TooLarge | Unreadable | BadInclude | NothingThere | ParseFailed(e: ParseError)

  datatype Problem = Problem(path: string, why: Why)

  datatype State = State(visited: set<string>, filesRead: nat, problems: seq<Problem>) {
    function Note(path: string, why: Why): State { this.(problems := problems + [Problem(path, why)]) }
  }

  const NOTHING_READ := State({}, 0, [])

  /** A file's contents, or nothing if it has been seen, cannot be had, or there are too many. */
  function ReadFrom(fs: FileSystem, b: Bounds, st: State, path: string): (State, Option<string>) {
    var resolved := fs.abs(path);
    if resolved in st.visited then (st, None) else
    var seen := st.(visited := st.visited + {resolved});
    if st.filesRead >= b.maxFiles then (seen.Note(path, StoppedAtLimit), None) else
    match fs.stat(resolved)
    case Missing => (seen.Note(path, StatFailed), None)
    case Directory => (seen, None)
    case File(size, data) =>
      if size > b.maxFileBytes then (seen.Note(path, TooLarge), None)
      else if data.None? then (seen.Note(path, Unreadable), None)
      else (seen.(filesRead := seen.filesRead + 1), data)
  }

  function ExpandFrom(fs: FileSystem, st: State, pattern: string, relativeTo: string): (State, seq<string>) {
    match fs.glob(pattern, relativeTo)
    case BadPattern => (st.Note(pattern, BadInclude), [])
    case NoMatch(literal) => (if literal then st.Note(pattern, NothingThere) else st, [])
    case Matches(paths) => (st, paths)
  }

  /** None of these files has been seen, there is room for all of them under the limits, and each holds the
      text at its place. */
  ghost predicate Unread(fs: FileSystem, b: Bounds, st: State, paths: seq<string>, texts: seq<string>) {
    && |paths| == |texts|
    && st.filesRead + |paths| <= b.maxFiles
    && (forall i :: 0 <= i < |paths| ==> Holds(fs, b, paths[i], texts[i]) && fs.abs(paths[i]) !in st.visited)
    && (forall i, j :: 0 <= i < j < |paths| ==> fs.abs(paths[i]) != fs.abs(paths[j]))
  }

  ghost predicate Holds(fs: FileSystem, b: Bounds, path: string, text: string) {
    var s := fs.stat(fs.abs(path));
    s.File? && s.size <= b.maxFileBytes && s.data == Some(text)
  }

  /** What is known once they have been read: one more name and one more file each, and nothing to note. */
  function AfterReading(fs: FileSystem, st: State, paths: seq<string>): State {
    State(st.visited + (set i | 0 <= i < |paths| :: fs.abs(paths[i])), st.filesRead + |paths|, st.problems)
  }

  lemma NothingRead(fs: FileSystem, st: State)
    ensures AfterReading(fs, st, []) == st
  {
    assert st.visited + {} == st.visited;
  }

  lemma ReadsFirst(fs: FileSystem, b: Bounds, st: State, paths: seq<string>, texts: seq<string>)
    requires Unread(fs, b, st, paths, texts) && paths != []
    ensures var st' := AfterReading(fs, st, [paths[0]]);
      && ReadFrom(fs, b, st, paths[0]) == (st', Some(texts[0]))
      && Unread(fs, b, st', paths[1..], texts[1..])
      && AfterReading(fs, st', paths[1..]) == AfterReading(fs, st, paths)
  {
    var st' := AfterReading(fs, st, [paths[0]]);
    assert Holds(fs, b, paths[0], texts[0]);
    assert [paths[0]][0] == paths[0];
    assert st'.visited == st.visited + {fs.abs(paths[0])} by {
      assert fs.abs([paths[0]][0]) in st'.visited;
    }
    forall i | 0 <= i < |paths[1..]|
      ensures Holds(fs, b, paths[1..][i], texts[1..][i]) && fs.abs(paths[1..][i]) !in st'.visited
    {
      assert Holds(fs, b, paths[i + 1], texts[i + 1]);
    }
    var all := set i | 0 <= i < |paths| :: fs.abs(paths[i]);
    var rest := set i | 0 <= i < |paths[1..]| :: fs.abs(paths[1..][i]);
    assert all == {fs.abs(paths[0])} + rest by {
      forall a | a in all ensures a in {fs.abs(paths[0])} + rest {
        var i :| 0 <= i < |paths| && fs.abs(paths[i]) == a;
        if i > 0 {
          assert paths[1..][i - 1] == paths[i];
        }
      }
      forall a | a in rest ensures a in all {
        var i :| 0 <= i < |paths[1..]| && fs.abs(paths[1..][i]) == a;
        assert paths[i + 1] == paths[1..][i];
      }
    }
  }

  /** The pattern, from that directory, names this path. */
  predicate PatternNames(fs: FileSystem, pattern: string, relativeTo: string, path: string) {
    var g := fs.glob(pattern, relativeTo);
    g.Matches? && path in g.paths
  }

  /** Something a configuration needs is not there: the pattern is malformed, or is a plain path and names
      nothing. A wildcard may name nothing. */
  predicate Dangling(fs: FileSystem, pattern: string, relativeTo: string) {
    var g := fs.glob(pattern, relativeTo);
    g.BadPattern? || (g.NoMatch? && g.literal)
  }

  class ConfigReader {
    const fs: FileSystem
    const bounds: Bounds
    var visited: set<string>
    var filesRead: nat
    var problems: seq<Problem>

    constructor (fs: FileSystem, bounds: Bounds)
      ensures this.fs == fs && this.bounds == bounds && Now() == NOTHING_READ
    {
      this.fs, this.bounds := fs, bounds;
      visited, filesRead, problems := {}, 0, [];
    }

    function Now(): State
      reads this
    {
      State(visited, filesRead, problems)
    }

    method Note(path: string, why: Why)
      modifies this`problems
      ensures Now() == old(Now()).Note(path, why)
    {
      problems := problems + [Problem(path, why)];
    }

    /** No file is read twice, and none once the limit is reached. */
    method Read(path: string) returns (data: Option<string>)
      modifies this
      ensures data.Some? <==>
        && fs.abs(path) !in old(visited) && old(filesRead) < bounds.maxFiles
        && var s := fs.stat(fs.abs(path)); s.File? && s.size <= bounds.maxFileBytes && s.data.Some?
      ensures data.Some? ==> Holds(fs, bounds, path, data.value)
      ensures problems == old(problems) <==>
        || data.Some? || fs.abs(path) in old(visited)
        || (old(filesRead) < bounds.maxFiles && fs.stat(fs.abs(path)).Directory?)
      ensures visited == old(visited) + {fs.abs(path)} && |problems| <= |old(problems)| + 1 && old(problems) <= problems
      ensures (Now(), data) == ReadFrom(fs, bounds, old(Now()), path)
      ensures data.Some? ==> fs.abs(path) !in old(visited) && fs.abs(path) in visited && old(filesRead) < bounds.maxFiles
      ensures old(visited) <= visited && filesRead == old(filesRead) + (if data.Some? then 1 else 0)
    {
      var resolved := fs.abs(path);
      if resolved in visited {
        return None;
      }
      visited := visited + {resolved};
      if filesRead >= bounds.maxFiles {
        Note(path, StoppedAtLimit);
        return None;
      }
      match fs.stat(resolved)
      case Missing =>
        Note(path, StatFailed);
        return None;
      case Directory =>
        return None;
      case File(size, contents) =>
        if size > bounds.maxFileBytes {
          Note(path, TooLarge);
          return None;
        }
        if contents.None? {
          Note(path, Unreadable);
          return None;
        }
        filesRead := filesRead + 1;
        return contents;
    }

    /** What an include names, all of it, or else one problem, which says whose pattern it was. */
    method Expand(pattern: string, relativeTo: string) returns (paths: seq<string>)
      modifies this`problems
      ensures forall path :: path in paths <==> PatternNames(fs, pattern, relativeTo, path)
      ensures Dangling(fs, pattern, relativeTo) <==> problems != old(problems)
      ensures Dangling(fs, pattern, relativeTo) ==>
        && paths == []
        && |problems| == |old(problems)| + 1 && old(problems) < problems && problems[|old(problems)|].path == pattern
      ensures (Now(), paths) == ExpandFrom(fs, old(Now()), pattern, relativeTo)
    {
      match fs.glob(pattern, relativeTo)
      case BadPattern =>
        Note(pattern, BadInclude);
        return [];
      case NoMatch(literal) =>
        if literal {
          Note(pattern, NothingThere);
        }
        return [];
      case Matches(matches) =>
        return matches;
    }
  }
}
