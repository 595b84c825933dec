/** The nginx block parser: directives with included files spliced in where they are included. */
module Nginx {
  import opened Basics
  import opened NginxSyntax
  import opened ConfigReaders

  datatype Directive = Directive(name: string, args: seq<string>, children: seq<Directive>, file: string)

  /** What a file or a block parsed to. `used` counts the tokens consumed: one more for each block
      that the input ends inside. */
  datatype Parsed = Parsed(st: State, nodes: seq<Directive>, used: nat, error: Option<ParseError>)

  predicate IsInclude(words: seq<string>) { |words| > 1 && words[0] == "include" }

  function From<T>(s: seq<T>, n: nat): (r: seq<T>)
    ensures |r| <= |s| && (n > 0 && s != [] ==> |r| < |s|)
  {
    if n <= |s| then s[n..] else []
  }

  /** The parse goes on as r after these nodes and this many tokens. */
  function Then(nodes: seq<Directive>, used: nat, r: Parsed): Parsed {
    Parsed(r.st, nodes + r.nodes, used + r.used, r.error)
  }

  function ParseFile(fs: FileSystem, b: Bounds, st: State, path: string, depth: nat): Parsed
    requires depth <= b.maxDepth + 1
    decreases b.maxDepth + 1 - depth, 2, 0
  {
    if depth > b.maxDepth then Parsed(st, [], 0, Some(IncludesTooDeep)) else
    var (st', data) := ReadFrom(fs, b, st, path);
    if data.None? then Parsed(st', [], 0, None) else
    var r := ParseBlock(fs, b, st', Tokens(data.value), [], path, depth);
    if r.error.Some? then Parsed(r.st, [], 0, r.error) else r
  }

  /** Every file an include names, one after the other; one that fails is noted and passed over. */
  function ParseMatches(fs: FileSystem, b: Bounds, st: State, paths: seq<string>, depth: nat): (State, seq<Directive>)
    requires depth <= b.maxDepth
    decreases b.maxDepth + 1 - depth, 0, |paths|
  {
    if paths == [] then (st, []) else
    var r := ParseFile(fs, b, st, paths[0], depth + 1);
    var st' := if r.error.Some? then r.st.Note(paths[0], ParseFailed(r.error.value)) else r.st;
    var (st'', rest) := ParseMatches(fs, b, st', paths[1..], depth);
    (st'', (if r.error.Some? then [] else r.nodes) + rest)
  }

  /** What the statement that ends at a semicolon stands for. */
  function ParseSimple(fs: FileSystem, b: Bounds, st: State, words: seq<string>, file: string, depth: nat): (State, seq<Directive>)
    requires depth <= b.maxDepth
    decreases b.maxDepth + 1 - depth, 1, 0
  {
    if words == [] then (st, [])
    else if IsInclude(words) then
      var (st', paths) := ExpandFrom(fs, st, words[1], fs.dir(file));
      ParseMatches(fs, b, st', paths, depth)
    else (st, [Directive(words[0], words[1..], [], file)])
  }

  /** The block at the front of tokens, with `words` already collected. */
  function ParseBlock(fs: FileSystem, b: Bounds, st: State, tokens: seq<Token>, words: seq<string>, file: string, depth: nat): Parsed
    requires depth <= b.maxDepth
    decreases b.maxDepth + 1 - depth, 1, |tokens|
  {
    if tokens == [] then Parsed(st, [], 0, None) else
    match tokens[0]
    case Word(text) => Then([], 1, ParseBlock(fs, b, st, tokens[1..], words + [text], file, depth))
    case Punct(ch) =>
      if ch == ';' then
        var (st', nodes) := ParseSimple(fs, b, st, words, file, depth);
        Then(nodes, 1, ParseBlock(fs, b, st', tokens[1..], [], file, depth))
      else if ch == '{' then
        if words == [] then Parsed(st, [], 0, Some(OrphanBlock)) else
        var inner := ParseBlock(fs, b, st, tokens[1..], [], file, depth);
        if inner.error.Some? then Parsed(inner.st, [], 0, inner.error) else
        var node := Directive(words[0], words[1..], inner.nodes, file);
        Then([node], inner.used + 2, ParseBlock(fs, b, inner.st, From(tokens, inner.used + 2), [], file, depth))
      else if ch == '}' then Parsed(st, [], 0, None)
      else Then([], 1, ParseBlock(fs, b, st, tokens[1..], words, file, depth))
  }

  // ── round trip ─────────────────────────────────────────────────────────────

  /** The words that leave a token. */
  function NonEmpty(words: seq<string>): seq<string> {
    if words == [] then [] else (if words[0] == "" then [] else [words[0]]) + NonEmpty(words[1..])
  }

  /** Each statement has a word, and none is an include. */
  predicate Plain(s: Statement) {
    && NonEmpty(s.words) != []
    && (s.Simple? ==> !IsInclude(NonEmpty(s.words)))
    && (s.Block? ==> AllPlain(s.children))
  }

  predicate AllPlain(ss: seq<Statement>) { ss == [] || (Plain(ss[0]) && AllPlain(ss[1..])) }

  function DirectiveOf(s: Statement, file: string): Directive
    requires Plain(s)
  {
    var words := NonEmpty(s.words);
    Directive(words[0], words[1..], if s.Simple? then [] else DirectivesOf(s.children, file), file)
  }

  function DirectivesOf(ss: seq<Statement>, file: string): seq<Directive>
    requires AllPlain(ss)
  {
    if ss == [] then [] else [DirectiveOf(ss[0], file)] + DirectivesOf(ss[1..], file)
  }

  lemma {:induction false} CollectsWords(fs: FileSystem, b: Bounds, st: State, words: seq<string>, rest: seq<Token>, got: seq<string>, file: string, depth: nat)
    requires depth <= b.maxDepth
    ensures ParseBlock(fs, b, st, WordTokens(words) + rest, got, file, depth) ==
      Then([], |WordTokens(words)|, ParseBlock(fs, b, st, rest, got + NonEmpty(words), file, depth))
    decreases |words|
  {
    var tokens := WordTokens(words) + rest;
    if words == [] {
      assert tokens == rest && got + [] == got;
      ThenNothing(ParseBlock(fs, b, st, rest, got, file, depth));
    } else if words[0] == "" {
      assert tokens == WordTokens(words[1..]) + rest;
      assert NonEmpty(words) == NonEmpty(words[1..]);
      CollectsWords(fs, b, st, words[1..], rest, got, file, depth);
    } else {
      assert tokens[0] == Word(words[0]) && tokens[1..] == WordTokens(words[1..]) + rest;
      CollectsWords(fs, b, st, words[1..], rest, got + [words[0]], file, depth);
      assert got + [words[0]] + NonEmpty(words[1..]) == got + NonEmpty(words);
      ThenThen([], 1, [], |WordTokens(words[1..])|, ParseBlock(fs, b, st, rest, got + NonEmpty(words), file, depth));
    }
  }

  lemma ThenNothing(r: Parsed)
    ensures Then([], 0, r) == r
  {
    assert [] + r.nodes == r.nodes;
  }

  lemma ThenThen(a: seq<Directive>, m: nat, c: seq<Directive>, n: nat, r: Parsed)
    ensures Then(a, m, Then(c, n, r)) == Then(a + c, m + n, r)
  {
    assert a + (c + r.nodes) == a + c + r.nodes;
  }

  lemma ParsesSimple(fs: FileSystem, b: Bounds, st: State, s: Statement, rest: seq<Token>, file: string, depth: nat)
    requires depth <= b.maxDepth && Plain(s) && s.Simple?
    ensures ParseBlock(fs, b, st, [Punct(';')] + rest, NonEmpty(s.words), file, depth) ==
      Then([DirectiveOf(s, file)], 1, ParseBlock(fs, b, st, rest, [], file, depth))
  {
    assert ([Punct(';')] + rest)[1..] == rest;
  }

  /** One printed statement parses to its directive, whatever follows it. */
  lemma {:induction false} ParsesStatement(fs: FileSystem, b: Bounds, st: State, s: Statement, rest: seq<Token>, file: string, depth: nat)
    requires depth <= b.maxDepth && Plain(s)
    ensures ParseBlock(fs, b, st, StatementTokens(s) + rest, [], file, depth) ==
      Then([DirectiveOf(s, file)], |StatementTokens(s)|, ParseBlock(fs, b, st, rest, [], file, depth))
    decreases s
  {
    hide ParseBlock, DirectiveOf, WordTokens, AllTokens, StatementTokens;
    var words := WordTokens(s.words);
    InParts(s, rest);
    assert [] + NonEmpty(s.words) == NonEmpty(s.words);
    match s
    case Simple(_) =>
      var tail := [Punct(';')] + rest;
      CollectsWords(fs, b, st, s.words, tail, [], file, depth);
      ParsesSimple(fs, b, st, s, rest, file, depth);
      ThenThen([], |words|, [DirectiveOf(s, file)], 1, ParseBlock(fs, b, st, rest, [], file, depth));
    case Block(_, children) =>
      var body, closed := AllTokens(children), [Punct('}')] + rest;
      var tail := [Punct('{')] + (body + closed);
      CollectsWords(fs, b, st, s.words, tail, [], file, depth);
      ParsesAll(fs, b, st, children, closed, file, depth);
      ParsesBody(fs, b, st, s, rest, file, depth);
      ThenThen([], |words|, [DirectiveOf(s, file)], |body| + 2, ParseBlock(fs, b, st, rest, [], file, depth));
  }

  lemma InParts(s: Statement, rest: seq<Token>)
    ensures s.Simple? ==>
      && StatementTokens(s) + rest == WordTokens(s.words) + ([Punct(';')] + rest)
      && |StatementTokens(s)| == |WordTokens(s.words)| + 1
    ensures s.Block? ==>
      && StatementTokens(s) + rest == WordTokens(s.words) + ([Punct('{')] + (AllTokens(s.children) + ([Punct('}')] + rest)))
      && |StatementTokens(s)| == |WordTokens(s.words)| + 2 + |AllTokens(s.children)|
  {
    hide WordTokens, AllTokens;
    if s.Block? {
      RegroupedTokens(WordTokens(s.words), [Punct('{')], AllTokens(s.children), [Punct('}')], rest);
    }
  }

  lemma ParsesBody(fs: FileSystem, b: Bounds, st: State, s: Statement, rest: seq<Token>, file: string, depth: nat)
    requires depth <= b.maxDepth && Plain(s) && s.Block?
    requires var body, closed := AllTokens(s.children), [Punct('}')] + rest;
      ParseBlock(fs, b, st, body + closed, [], file, depth) ==
      Then(DirectivesOf(s.children, file), |body|, ParseBlock(fs, b, st, closed, [], file, depth))
    ensures var body := AllTokens(s.children);
      ParseBlock(fs, b, st, [Punct('{')] + (body + ([Punct('}')] + rest)), NonEmpty(s.words), file, depth) ==
      Then([DirectiveOf(s, file)], |body| + 2, ParseBlock(fs, b, st, rest, [], file, depth))
  {
    hide ParseBlock, AllTokens, DirectivesOf;
    var body, closed := AllTokens(s.children), [Punct('}')] + rest;
    var tokens := [Punct('{')] + (body + closed);
    assert tokens[1..] == body + closed;
    OpenUnfolds(fs, b, st, tokens, NonEmpty(s.words), file, depth);
    AtEnd(fs, b, st, DirectivesOf(s.children, file), |body|, body + closed, [], file, depth);
    assert From(body + closed, |body|) == closed;
    assert From(tokens, |body| + 2) == rest;
  }

  lemma {:induction false} ParsesAll(fs: FileSystem, b: Bounds, st: State, ss: seq<Statement>, rest: seq<Token>, file: string, depth: nat)
    requires depth <= b.maxDepth && AllPlain(ss)
    ensures ParseBlock(fs, b, st, AllTokens(ss) + rest, [], file, depth) ==
      Then(DirectivesOf(ss, file), |AllTokens(ss)|, ParseBlock(fs, b, st, rest, [], file, depth))
    decreases ss
  {
    var after := ParseBlock(fs, b, st, rest, [], file, depth);
    if ss == [] {
      assert AllTokens(ss) + rest == rest;
      ThenNothing(after);
    } else {
      var tail := AllTokens(ss[1..]) + rest;
      assert AllTokens(ss) + rest == StatementTokens(ss[0]) + tail;
      ParsesStatement(fs, b, st, ss[0], tail, file, depth);
      ParsesAll(fs, b, st, ss[1..], rest, file, depth);
      ThenThen([DirectiveOf(ss[0], file)], |StatementTokens(ss[0])|, DirectivesOf(ss[1..], file), |AllTokens(ss[1..])|, after);
    }
  }

  /** However a tree of statements is written, tokenising and parsing it gives the tree, with its empty words
      dropped. */
  lemma ConfigurationRoundTrip(fs: FileSystem, b: Bounds, st: State, first: seq<Filler>, written: seq<Source>, file: string, depth: nat)
    requires depth <= b.maxDepth && AreFillers(first) && AllWellWritten(written) && AllPlain(AllMeant(written))
    ensures var ss := AllMeant(written);
      ParseBlock(fs, b, st, Tokens(FileText(first, written)), [], file, depth) ==
      Parsed(st, DirectivesOf(ss, file), |AllTokens(ss)|, None)
  {
    var ss := AllMeant(written);
    TokensRoundTrip(first, written);
    ParsesAll(fs, b, st, ss, [], file, depth);
    assert AllTokens(ss) + [] == AllTokens(ss);
    assert DirectivesOf(ss, file) + [] == DirectivesOf(ss, file);
  }

  /** The words come back as they were exactly when none is empty. */
  lemma {:induction false} WordsComeBack(words: seq<string>)
    ensures NonEmpty(words) == words <==> "" !in words
    ensures |NonEmpty(words)| <= |words|
  {
    if words != [] {
      WordsComeBack(words[1..]);
      if words[0] != "" {
        assert NonEmpty(words)[1..] == NonEmpty(words[1..]);
        assert words == [words[0]] + words[1..];
      }
    }
  }

  predicate NoEmptyWord(ss: seq<Statement>) {
    ss == [] || ("" !in ss[0].words && (ss[0].Block? ==> NoEmptyWord(ss[0].children)) && NoEmptyWord(ss[1..]))
  }

  /** The statement as a directive, with every word as it was written. */
  function Written(s: Statement, file: string): Directive
    requires Plain(s)
  {
    Directive(s.words[0], s.words[1..], if s.Simple? then [] else AllWritten(s.children, file), file)
  }

  function AllWritten(ss: seq<Statement>, file: string): seq<Directive>
    requires AllPlain(ss)
  {
    if ss == [] then [] else [Written(ss[0], file)] + AllWritten(ss[1..], file)
  }

  lemma {:induction false} WrittenComesBack(ss: seq<Statement>, file: string)
    requires AllPlain(ss)
    ensures DirectivesOf(ss, file) == AllWritten(ss, file) <==> NoEmptyWord(ss)
    decreases ss
  {
    if ss != [] {
      var s := ss[0];
      var words, got := s.words, NonEmpty(s.words);
      WordsComeBack(words);
      if got[0] == words[0] && got[1..] == words[1..] {
        assert got == [got[0]] + got[1..] && words == [words[0]] + words[1..];
      }
      if s.Block? {
        WrittenComesBack(s.children, file);
      }
      WrittenComesBack(ss[1..], file);
      SameLists(DirectiveOf(s, file), DirectivesOf(ss[1..], file), Written(s, file), AllWritten(ss[1..], file));
    }
  }

  lemma SameLists(a: Directive, as_: seq<Directive>, b: Directive, bs: seq<Directive>)
    ensures [a] + as_ == [b] + bs <==> a == b && as_ == bs
  {
    if [a] + as_ == [b] + bs {
      assert a == ([a] + as_)[0] && as_ == ([a] + as_)[1..];
      assert b == ([b] + bs)[0] && bs == ([b] + bs)[1..];
    }
  }

  /** A written tree comes back word for word exactly when none of its words is empty. */
  lemma TreeComesBackExactlyWhen(fs: FileSystem, b: Bounds, st: State, first: seq<Filler>, written: seq<Source>, file: string, depth: nat)
    requires depth <= b.maxDepth && AreFillers(first) && AllWellWritten(written) && AllPlain(AllMeant(written))
    ensures var ss := AllMeant(written);
      ParseBlock(fs, b, st, Tokens(FileText(first, written)), [], file, depth).nodes == AllWritten(ss, file) <==> NoEmptyWord(ss)
  {
    ConfigurationRoundTrip(fs, b, st, first, written, file, depth);
    WrittenComesBack(AllMeant(written), file);
  }

  /** An empty word does not come back: what was written with one argument is read with none. */
  lemma EmptyWordIsLost(fs: FileSystem, b: Bounds, st: State, file: string)
    ensures var ss := [Simple(["root", ""])];
      && AllPlain(ss) && !NoEmptyWord(ss)
      && ParseBlock(fs, b, st, Tokens(FileText([], AllPrinted(ss))), [], file, 0).nodes == [Directive("root", [], [], file)]
  {
    var words := ["root", ""];
    assert words[1..] == [""] && [""][1..] == [];
    assert NonEmpty([""]) == [] && NonEmpty(words) == ["root"];
    var s := Simple(words);
    assert Plain(s) && [s][1..] == [];
    assert words[1] in words;
    AllPrintedIsWritten([s]);
    ConfigurationRoundTrip(fs, b, st, [], AllPrinted([s]), file, 0);
  }

  // ── includes ───────────────────────────────────────────────────────────────

  /** What each of these files holds, once written. */
  function FileTexts(written: seq<seq<Source>>): seq<string> {
    if written == [] then [] else [FileText([], written[0])] + FileTexts(written[1..])
  }

  predicate FilesPlain(written: seq<seq<Source>>) {
    written == [] || (AllWellWritten(written[0]) && AllPlain(AllMeant(written[0])) && FilesPlain(written[1..]))
  }

  /** The directives of the files in order, each as from its own file. */
  function FilesDirectives(written: seq<seq<Source>>, paths: seq<string>): seq<Directive>
    requires |paths| == |written| && FilesPlain(written)
  {
    if written == [] then [] else
    DirectivesOf(AllMeant(written[0]), paths[0]) + FilesDirectives(written[1..], paths[1..])
  }

  lemma {:induction false} MatchesSplice(fs: FileSystem, b: Bounds, st: State, paths: seq<string>, written: seq<seq<Source>>, depth: nat)
    requires depth < b.maxDepth && |paths| == |written| && FilesPlain(written)
    requires Unread(fs, b, st, paths, FileTexts(written))
    ensures ParseMatches(fs, b, st, paths, depth) == (AfterReading(fs, st, paths), FilesDirectives(written, paths))
    decreases |paths|
  {
    if paths == [] {
      NothingRead(fs, st);
    } else {
      ReadsFirst(fs, b, st, paths, FileTexts(written));
      var st' := AfterReading(fs, st, [paths[0]]);
      ConfigurationRoundTrip(fs, b, st', [], written[0], paths[0], depth + 1);
      MatchesSplice(fs, b, st', paths[1..], written[1..], depth);
    }
  }

  /** An include stands for the statements of the files it names: they are spliced in where it stands, file
      after file, whatever comes before and behind it and whatever block it is in. */
  lemma IncludeSplices(
      fs: FileSystem, b: Bounds, st: State, before: seq<Statement>, pattern: string, after: seq<Statement>, rest: seq<Token>,
      paths: seq<string>, written: seq<seq<Source>>, file: string, depth: nat)
    requires depth < b.maxDepth && AllPlain(before) && AllPlain(after) && pattern != ""
    requires fs.glob(pattern, fs.dir(file)) == Matches(paths)
    requires |paths| == |written| && FilesPlain(written) && Unread(fs, b, st, paths, FileTexts(written))
    ensures var tokens := AllTokens(before) + (StatementTokens(Simple(["include", pattern])) + (AllTokens(after) + rest));
      var nodes := DirectivesOf(before, file) + FilesDirectives(written, paths) + DirectivesOf(after, file);
      ParseBlock(fs, b, st, tokens, [], file, depth) ==
      Then(nodes, |AllTokens(before)| + 3 + |AllTokens(after)|,
           ParseBlock(fs, b, AfterReading(fs, st, paths), rest, [], file, depth))
  {
    hide ParseMatches, ParseBlock, ParseSimple, AllTokens, StatementTokens, DirectivesOf, FilesDirectives, Unread, FilesPlain, AfterReading, Plain, AllPlain;
    var st' := AfterReading(fs, st, paths);
    var tail := AllTokens(after) + rest;
    var splice := StatementTokens(Simple(["include", pattern])) + tail;
    var end := ParseBlock(fs, b, st', rest, [], file, depth);
    ParsesAll(fs, b, st, before, splice, file, depth);
    ParsesAll(fs, b, st', after, rest, file, depth);
    MatchesSplice(fs, b, st, paths, written, depth);
    IncludeMeans(fs, b, st, pattern, paths, file, depth);
    IncludeStatement(fs, b, st, st', pattern, FilesDirectives(written, paths), tail, file, depth);
    ThenThen(FilesDirectives(written, paths), 3, DirectivesOf(after, file), |AllTokens(after)|, end);
    ThenThen(DirectivesOf(before, file), |AllTokens(before)|,
      FilesDirectives(written, paths) + DirectivesOf(after, file), 3 + |AllTokens(after)|, end);
    assert DirectivesOf(before, file) + (FilesDirectives(written, paths) + DirectivesOf(after, file)) ==
      DirectivesOf(before, file) + FilesDirectives(written, paths) + DirectivesOf(after, file);
  }

  lemma IncludeMeans(fs: FileSystem, b: Bounds, st: State, pattern: string, paths: seq<string>, file: string, depth: nat)
    requires depth < b.maxDepth && fs.glob(pattern, fs.dir(file)) == Matches(paths)
    ensures ParseSimple(fs, b, st, ["include", pattern], file, depth) == ParseMatches(fs, b, st, paths, depth)
  {
  }

  lemma IncludeStatement(fs: FileSystem, b: Bounds, st: State, st': State, pattern: string, nodes: seq<Directive>, tail: seq<Token>, file: string, depth: nat)
    requires depth < b.maxDepth && pattern != ""
    requires ParseSimple(fs, b, st, ["include", pattern], file, depth) == (st', nodes)
    ensures ParseBlock(fs, b, st, StatementTokens(Simple(["include", pattern])) + tail, [], file, depth) ==
      Then(nodes, 3, ParseBlock(fs, b, st', tail, [], file, depth))
  {
    hide ParseSimple;
    var words := ["include", pattern];
    assert words[1..] == [pattern] && [pattern][1..] == [];
    assert WordTokens([]) == [] && WordTokens([pattern]) == [Word(pattern)] + WordTokens([]);
    assert WordTokens(words) == [Word("include")] + WordTokens([pattern]);
    var tokens := StatementTokens(Simple(words)) + tail;
    assert tokens == [Word("include"), Word(pattern), Punct(';')] + tail;
    assert tokens[1..] == [Word(pattern), Punct(';')] + tail && tokens[1..][1..] == [Punct(';')] + tail && tokens[1..][1..][1..] == tail;
    assert [] + ["include"] == ["include"] && ["include"] + [pattern] == words;
    var last := ParseBlock(fs, b, st', tail, [], file, depth);
    assert ParseBlock(fs, b, st, tokens[1..][1..], words, file, depth) == Then(nodes, 1, last);
    assert ParseBlock(fs, b, st, tokens[1..], ["include"], file, depth) == Then([], 1, Then(nodes, 1, last));
    ThenThen([], 1, nodes, 1, last);
    ThenThen([], 1, nodes, 2, last);
    assert [] + nodes == nodes;
  }

  /** A whole file with an include in it. */
  lemma FileWithInclude(
      fs: FileSystem, b: Bounds, st: State, path: string, first: seq<Filler>, all: seq<Source>,
      before: seq<Statement>, pattern: string, after: seq<Statement>, paths: seq<string>, written: seq<seq<Source>>, depth: nat)
    requires depth < b.maxDepth && AllPlain(before) && AllPlain(after) && pattern != ""
    requires AreFillers(first) && AllWellWritten(all) && AllMeant(all) == before + [Simple(["include", pattern])] + after
    requires fs.glob(pattern, fs.dir(path)) == Matches(paths)
    requires |paths| == |written| && FilesPlain(written)
    requires Unread(fs, b, st, [path] + paths, [FileText(first, all)] + FileTexts(written))
    ensures var r := ParseFile(fs, b, st, path, depth);
      && r.error == None && r.st == AfterReading(fs, st, [path] + paths)
      && r.nodes == DirectivesOf(before, path) + FilesDirectives(written, paths) + DirectivesOf(after, path)
  {
    hide ParseBlock, ParseMatches, Unread, DirectivesOf, FilesDirectives, FilesPlain, FileTexts, StatementTokens, AllTokens, AllMeant, AllWellWritten, AllPlain;
    var texts := [FileText(first, all)] + FileTexts(written);
    ReadsFirst(fs, b, st, [path] + paths, texts);
    var st' := AfterReading(fs, st, [path]);
    assert ([path] + paths)[1..] == paths && texts[1..] == FileTexts(written);
    TokensRoundTrip(first, all);
    var splice := Simple(["include", pattern]);
    AllTokensAppend(before + [splice], after);
    AllTokensAppend(before, [splice]);
    OneStatement(splice);
    IncludeSplices(fs, b, st', before, pattern, after, [], paths, written, path, depth);
    assert AllTokens(before) + (StatementTokens(splice) + (AllTokens(after) + [])) ==
      AllTokens(before) + StatementTokens(splice) + AllTokens(after);
    EmptyBlock(fs, b, AfterReading(fs, st', paths), path, depth);
    var nodes := DirectivesOf(before, path) + FilesDirectives(written, paths) + DirectivesOf(after, path);
    assert nodes + [] == nodes;
  }

  /** Below the depth an include adds nothing, and each file it names is noted. */
  lemma {:induction false} TooDeepIsNoted(fs: FileSystem, b: Bounds, st: State, paths: seq<string>)
    ensures var (st', nodes) := ParseMatches(fs, b, st, paths, b.maxDepth);
      && nodes == [] && st'.visited == st.visited && st'.filesRead == st.filesRead
      && st'.problems == st.problems +
           seq(|paths|, i requires 0 <= i < |paths| => Problem(paths[i], ParseFailed(IncludesTooDeep)))
    decreases |paths|
  {
    if paths != [] {
      TooDeepIsNoted(fs, b, st.Note(paths[0], ParseFailed(IncludesTooDeep)), paths[1..]);
    }
  }

  lemma OneStatement(s: Statement)
    ensures AllTokens([s]) == StatementTokens(s)
  {
    assert [s][1..] == [];
  }

  lemma EmptyBlock(fs: FileSystem, b: Bounds, st: State, file: string, depth: nat)
    requires depth <= b.maxDepth
    ensures ParseBlock(fs, b, st, [], [], file, depth) == Parsed(st, [], 0, None)
  {
  }

  lemma {:induction false} AllTokensAppend(a: seq<Statement>, c: seq<Statement>)
    ensures AllTokens(a + c) == AllTokens(a) + AllTokens(c)
  {
    if a == [] {
      assert a + c == c;
    } else {
      assert (a + c)[1..] == a[1..] + c;
      AllTokensAppend(a[1..], c);
    }
  }

  // ── the parser as the agent runs it ────────────────────────────────────────

  method NginxParseFile(r: ConfigReader, path: string, depth: nat) returns (nodes: seq<Directive>, error: Option<ParseError>)
    requires depth <= r.bounds.maxDepth + 1
    modifies r
    ensures var p := ParseFile(r.fs, r.bounds, old(r.Now()), path, depth);
      r.Now() == p.st && nodes == p.nodes && error == p.error
    decreases r.bounds.maxDepth + 1 - depth, 2, 0
  {
    if depth > r.bounds.maxDepth {
      return [], Some(IncludesTooDeep);
    }
    var data := r.Read(path);
    if data.None? {
      return [], None;
    }
    var tokens := NginxTokenize(data.value);
    var used;
    nodes, used, error := NginxParseBlock(r, tokens, path, depth);
    if error.Some? {
      return [], error;
    }
  }

  /** Splices in every file an include names. */
  method NginxInclude(r: ConfigReader, paths: seq<string>, depth: nat) returns (nodes: seq<Directive>)
    requires depth <= r.bounds.maxDepth
    modifies r
    ensures (r.Now(), nodes) == ParseMatches(r.fs, r.bounds, old(r.Now()), paths, depth)
    decreases r.bounds.maxDepth + 1 - depth, 0, |paths|
  {
    nodes := [];
    assert paths[0..] == paths;
    SplicedNothing(ParseMatches(r.fs, r.bounds, r.Now(), paths, depth));
    for i := 0 to |paths|
      invariant ParseMatches(r.fs, r.bounds, old(r.Now()), paths, depth) ==
        Spliced(nodes, ParseMatches(r.fs, r.bounds, r.Now(), paths[i..], depth))
    {
      ghost var before, rest := nodes, paths[i..];
      assert rest[1..] == paths[i + 1..];
      var included, error := NginxParseFile(r, paths[i], depth + 1);
      if error.Some? {
        r.Note(paths[i], ParseFailed(error.value));
        included := [];
      }
      nodes := nodes + included;
      SplicedStep(before, included, ParseMatches(r.fs, r.bounds, r.Now(), rest[1..], depth));
    }
    assert paths[|paths|..] == [] && nodes + [] == nodes;
  }

  ghost function Spliced(nodes: seq<Directive>, r: (State, seq<Directive>)): (State, seq<Directive>) {
    (r.0, nodes + r.1)
  }

  lemma SplicedNothing(r: (State, seq<Directive>))
    ensures Spliced([], r) == r
  {
    assert [] + r.1 == r.1;
  }

  lemma SplicedStep(a: seq<Directive>, c: seq<Directive>, r: (State, seq<Directive>))
    ensures Spliced(a, (r.0, c + r.1)) == Spliced(a + c, r)
  {
    assert a + (c + r.1) == a + c + r.1;
  }

  // One turn of the block loop, by the token it meets.

  lemma AtWord(fs: FileSystem, b: Bounds, st: State, nodes: seq<Directive>, used: nat, tokens: seq<Token>, words: seq<string>, file: string, depth: nat)
    requires depth <= b.maxDepth && used < |tokens| && tokens[used].Word?
    ensures Then(nodes, used, ParseBlock(fs, b, st, From(tokens, used), words, file, depth)) ==
      Then(nodes, used + 1, ParseBlock(fs, b, st, From(tokens, used + 1), words + [tokens[used].text], file, depth))
  {
    assert From(tokens, used)[1..] == From(tokens, used + 1);
    ThenThen(nodes, used, [], 1, ParseBlock(fs, b, st, From(tokens, used + 1), words + [tokens[used].text], file, depth));
    assert nodes + [] == nodes;
  }

  lemma AtOther(fs: FileSystem, b: Bounds, st: State, nodes: seq<Directive>, used: nat, tokens: seq<Token>, words: seq<string>, file: string, depth: nat)
    requires depth <= b.maxDepth && used < |tokens| && tokens[used].Punct? && !IsPunct(tokens[used].ch)
    ensures Then(nodes, used, ParseBlock(fs, b, st, From(tokens, used), words, file, depth)) ==
      Then(nodes, used + 1, ParseBlock(fs, b, st, From(tokens, used + 1), words, file, depth))
  {
    assert From(tokens, used)[1..] == From(tokens, used + 1);
    ThenThen(nodes, used, [], 1, ParseBlock(fs, b, st, From(tokens, used + 1), words, file, depth));
    assert nodes + [] == nodes;
  }

  lemma AtSemicolon(fs: FileSystem, b: Bounds, st: State, nodes: seq<Directive>, used: nat, tokens: seq<Token>, words: seq<string>, file: string, depth: nat)
    requires depth <= b.maxDepth && used < |tokens| && tokens[used] == Punct(';')
    ensures var (st', more) := ParseSimple(fs, b, st, words, file, depth);
      Then(nodes, used, ParseBlock(fs, b, st, From(tokens, used), words, file, depth)) ==
      Then(nodes + more, used + 1, ParseBlock(fs, b, st', From(tokens, used + 1), [], file, depth))
  {
    var (st', more) := ParseSimple(fs, b, st, words, file, depth);
    assert From(tokens, used)[1..] == From(tokens, used + 1);
    ThenThen(nodes, used, more, 1, ParseBlock(fs, b, st', From(tokens, used + 1), [], file, depth));
  }

  lemma OpenUnfolds(fs: FileSystem, b: Bounds, st: State, tokens: seq<Token>, words: seq<string>, file: string, depth: nat)
    requires depth <= b.maxDepth && tokens != [] && tokens[0] == Punct('{') && words != []
    ensures var inner := ParseBlock(fs, b, st, tokens[1..], [], file, depth);
      ParseBlock(fs, b, st, tokens, words, file, depth) ==
        if inner.error.Some? then Parsed(inner.st, [], 0, inner.error)
        else Then([Directive(words[0], words[1..], inner.nodes, file)], inner.used + 2,
                  ParseBlock(fs, b, inner.st, From(tokens, inner.used + 2), [], file, depth))
  {
  }

  lemma AtOpen(fs: FileSystem, b: Bounds, st: State, nodes: seq<Directive>, used: nat, tokens: seq<Token>, words: seq<string>, file: string, depth: nat)
    requires depth <= b.maxDepth && used < |tokens| && tokens[used] == Punct('{') && words != []
    ensures var inner := ParseBlock(fs, b, st, tokens[used + 1..], [], file, depth);
      var node := Directive(words[0], words[1..], inner.nodes, file);
      var here := Then(nodes, used, ParseBlock(fs, b, st, From(tokens, used), words, file, depth));
      if inner.error.Some? then here.st == inner.st && here.error == inner.error
      else here == Then(nodes + [node], used + inner.used + 2,
                        ParseBlock(fs, b, inner.st, From(tokens, used + inner.used + 2), [], file, depth))
  {
    hide ParseBlock;
    var rest := From(tokens, used);
    assert rest[1..] == tokens[used + 1..];
    OpenUnfolds(fs, b, st, rest, words, file, depth);
    var inner := ParseBlock(fs, b, st, rest[1..], [], file, depth);
    if inner.error.None? {
      var node := Directive(words[0], words[1..], inner.nodes, file);
      assert From(rest, inner.used + 2) == From(tokens, used + inner.used + 2);
      ThenThen(nodes, used, [node], inner.used + 2, ParseBlock(fs, b, inner.st, From(tokens, used + inner.used + 2), [], file, depth));
    }
  }

  lemma AtEnd(fs: FileSystem, b: Bounds, st: State, nodes: seq<Directive>, used: nat, tokens: seq<Token>, words: seq<string>, file: string, depth: nat)
    requires depth <= b.maxDepth && (used < |tokens| ==> tokens[used] == Punct('}'))
    ensures Then(nodes, used, ParseBlock(fs, b, st, From(tokens, used), words, file, depth)) == Parsed(st, nodes, used, None)
  {
    assert nodes + [] == nodes;
  }

  method NginxParseBlock(r: ConfigReader, tokens: seq<Token>, file: string, depth: nat)
    returns (nodes: seq<Directive>, used: nat, error: Option<ParseError>)
    requires depth <= r.bounds.maxDepth
    modifies r
    ensures var p := ParseBlock(r.fs, r.bounds, old(r.Now()), tokens, [], file, depth);
      && r.Now() == p.st && error == p.error
      && (error.None? ==> nodes == p.nodes && used == p.used)
    decreases r.bounds.maxDepth + 1 - depth, 1, |tokens|
  {
    hide ParseBlock, ParseSimple;
    nodes, used, error := [], 0, None;
    var words: seq<string> := [];
    ghost var whole := ParseBlock(r.fs, r.bounds, r.Now(), tokens, [], file, depth);
    ThenNothing(whole);
    while used < |tokens|
      invariant error == None
      invariant whole == Then(nodes, used, ParseBlock(r.fs, r.bounds, r.Now(), From(tokens, used), words, file, depth))
      decreases |tokens| - used
    {
      var token := tokens[used];
      if token.Word? {
        AtWord(r.fs, r.bounds, r.Now(), nodes, used, tokens, words, file, depth);
        words, used := words + [token.text], used + 1;
      } else if token.ch == ';' {
        AtSemicolon(r.fs, r.bounds, r.Now(), nodes, used, tokens, words, file, depth);
        var more := NginxSimple(r, words, file, depth);
        nodes, used, words := nodes + more, used + 1, [];
      } else if token.ch == '{' {
        if |words| == 0 {
          OrphanBlockFails(r.fs, r.bounds, r.Now(), From(tokens, used), file, depth);
          return nodes, used, Some(OrphanBlock);
        }
        AtOpen(r.fs, r.bounds, r.Now(), nodes, used, tokens, words, file, depth);
        var children, inner;
        children, inner, error := NginxParseBlock(r, tokens[used + 1..], file, depth);
        if error.Some? {
          return;
        }
        var node := Directive(words[0], words[1..], children, file);
        nodes, used, words := nodes + [node], used + inner + 2, [];
      } else if token.ch == '}' {
        break;
      } else {
        AtOther(r.fs, r.bounds, r.Now(), nodes, used, tokens, words, file, depth);
        used := used + 1;
      }
    }
    AtEnd(r.fs, r.bounds, r.Now(), nodes, used, tokens, words, file, depth);
  }

  lemma OrphanBlockFails(fs: FileSystem, b: Bounds, st: State, tokens: seq<Token>, file: string, depth: nat)
    requires depth <= b.maxDepth && tokens != [] && tokens[0] == Punct('{')
    ensures ParseBlock(fs, b, st, tokens, [], file, depth) == Parsed(st, [], 0, Some(OrphanBlock))
  {
  }

  method NginxSimple(r: ConfigReader, words: seq<string>, file: string, depth: nat) returns (nodes: seq<Directive>)
    requires depth <= r.bounds.maxDepth
    modifies r
    ensures (r.Now(), nodes) == ParseSimple(r.fs, r.bounds, old(r.Now()), words, file, depth)
    decreases r.bounds.maxDepth + 1 - depth, 1, 0
  {
    if |words| == 0 {
      return [];
    }
    if words[0] == "include" && |words| > 1 {
      var paths := r.Expand(words[1], r.fs.dir(file));
      nodes := NginxInclude(r, paths, depth);
      return;
    }
    return [Directive(words[0], words[1..], [], file)];
  }
}
