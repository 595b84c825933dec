/** The Apache parser: directives and sections, with included files spliced in where they are included. */
module Apache {
  import opened Basics
  import opened ApacheSyntax
  import opened ConfigReaders

  datatype Directive = Directive(name: string, args: seq<string>, children: seq<Directive>, file: string)

  /** What has been read so far, and what relative includes are relative to. */
  datatype ApacheState = ApacheState(reader: State, serverRoot: string)

  /** What a block parsed to. `rest` starts with the line that closes it, if one does. */
  datatype Parsed = Parsed(st: ApacheState, nodes: seq<Directive>, rest: seq<string>)

  // ── strings as the standard library has them ───────────────────────────────

  predicate IsSpace(ch: char) {
    || ch == '\t' || ch == '\n' || ch == '\U{B}' || ch == '\U{C}' || ch == '\r' || ch == ' '
    || ch == '\U{85}' || ch == '\U{A0}' || ch == '\U{1680}' || '\U{2000}' <= ch <= '\U{200A}'
    || ch == '\U{2028}' || ch == '\U{2029}' || ch == '\U{202F}' || ch == '\U{205F}' || ch == '\U{3000}'
  }

  function TrimLeft(s: string): string { if s != "" && IsSpace(s[0]) then TrimLeft(s[1..]) else s }

  function TrimRight(s: string): string {
    if s != "" && IsSpace(s[|s| - 1]) then TrimRight(s[..|s| - 1]) else s
  }

  function TrimSpace(s: string): string { TrimRight(TrimLeft(s)) }

  function WithoutSuffix(s: string, ch: char): string {
    if s != "" && s[|s| - 1] == ch then s[..|s| - 1] else s
  }

  /** Lower case, as far as it can make a letter of these words: two letters outside ASCII have lower
      case forms inside it. */
  function LowerChar(ch: char): char {
    if 'A' <= ch <= 'Z' then ch - 'A' + 'a'
    else if ch == '\U{130}' then 'i'
    else if ch == '\U{212A}' then 'k'
    else ch
  }

  function Lower(s: string): string {
    seq(|s|, i requires 0 <= i < |s| => LowerChar(s[i]))
  }

  predicate IsServerRoot(name: string) { Lower(name) == "serverroot" }

  predicate IsInclude(name: string) { Lower(name) == "include" || Lower(name) == "includeoptional" }

  // ── the parser, on values ──────────────────────────────────────────────────

  function Then(nodes: seq<Directive>, r: Parsed): Parsed { r.(nodes := nodes + r.nodes) }

  function ParseFile(fs: FileSystem, b: Bounds, st: ApacheState, path: string, depth: nat): (ApacheState, Option<seq<Directive>>)
    requires depth <= b.maxDepth + 1
    decreases b.maxDepth + 1 - depth, 2, 0
  {
    if depth > b.maxDepth then (st, None) else
    var (reader, data) := ReadFrom(fs, b, st.reader, path);
    var st' := st.(reader := reader);
    if data.None? then (st', Some([])) else
    var r := ParseBlock(fs, b, st', LogicalLines(data.value), path, depth);
    (r.st, Some(r.nodes))
  }

  function ParseMatches(fs: FileSystem, b: Bounds, st: ApacheState, paths: seq<string>, depth: nat): (ApacheState, seq<Directive>)
    requires depth <= b.maxDepth
    decreases b.maxDepth + 1 - depth, 0, |paths|
  {
    if paths == [] then (st, []) else
    var (st', included) := ParseFile(fs, b, st, paths[0], depth + 1);
    if included.None? then
      ParseMatches(fs, b, st'.(reader := st'.reader.Note(paths[0], ParseFailed(IncludesTooDeep))), paths[1..], depth)
    else
      var (st'', rest) := ParseMatches(fs, b, st', paths[1..], depth);
      (st'', included.value + rest)
  }

  /** What a line outside a section stands for, by its fields. */
  function ParseSimple(fs: FileSystem, b: Bounds, st: ApacheState, parts: seq<string>, file: string, depth: nat): (ApacheState, seq<Directive>)
    requires depth <= b.maxDepth && parts != []
    decreases b.maxDepth + 1 - depth, 1, 0
  {
    if IsServerRoot(parts[0]) then (if |parts| > 1 then st.(serverRoot := parts[1]) else st, [])
    else if IsInclude(parts[0]) then
      if |parts| == 1 then (st, []) else
      var (reader, paths) := ExpandFrom(fs, st.reader, parts[1], st.serverRoot);
      ParseMatches(fs, b, st.(reader := reader), paths, depth)
    else (st, [Directive(parts[0], parts[1..], [], file)])
  }

  /** What a line is: nothing, the end of a section, the start of one, or a directive. */
  datatype Line = Blank | Close | Open(parts: seq<string>) | Plain(parts: seq<string>)

  function LineOf(raw: string): (r: Line)
    ensures r.Open? ==> r.parts != []
    ensures r.Plain? ==> r.parts != []
  {
    var line := TrimSpace(raw);
    if line == "" || line[0] == '#' then Blank
    else if "</" <= line then Close
    else
      var parts := if line[0] == '<' then Fields(WithoutSuffix(line[1..], '>')) else Fields(line);
      if parts == [] then Blank else if line[0] == '<' then Open(parts) else Plain(parts)
  }

  function ParseBlock(fs: FileSystem, b: Bounds, st: ApacheState, lines: seq<string>, file: string, depth: nat): (r: Parsed)
    requires depth <= b.maxDepth
    ensures |r.rest| <= |lines|
    decreases b.maxDepth + 1 - depth, 1, |lines|
  {
    if lines == [] then Parsed(st, [], []) else
    match LineOf(lines[0])
    case Blank => ParseBlock(fs, b, st, lines[1..], file, depth)
    case Close => Parsed(st, [], lines)
    case Open(parts) =>
      var inner := ParseBlock(fs, b, st, lines[1..], file, depth);
      var node := Directive(parts[0], parts[1..], inner.nodes, file);
      Then([node], ParseBlock(fs, b, inner.st, if inner.rest == [] then [] else inner.rest[1..], file, depth))
    case Plain(parts) =>
      var (st', nodes) := ParseSimple(fs, b, st, parts, file, depth);
      Then(nodes, ParseBlock(fs, b, st', lines[1..], file, depth))
  }

  // ── writing ────────────────────────────────────────────────────────────────

  /** A directive, or a section and what is in it. */
  datatype Item =
    | Simple(name: string, args: seq<string>)
    | Section(name: string, args: seq<string>, children: seq<Item>)

  /** The same as it is written. Before a line may come lines that say nothing, and around it blanks; a
      closing tag may say anything. */
  datatype Source =
    | LineSource(noise: seq<string>, indent: string, fields: seq<Field>, trail: string)
    | SectionSource(
        noise: seq<string>, indent: string, fields: seq<Field>, gap: string, trail: string,
        children: seq<Source>, endNoise: seq<string>, endIndent: string, closing: string)

  function Meant(s: Source): Item
    requires s.fields != []
    requires s.SectionSource? ==> AllHaveFields(s.children)
  {
    var words := FieldsMeant(s.fields);
    if s.LineSource? then Simple(words[0], words[1..]) else Section(words[0], words[1..], AllMeant(s.children))
  }

  predicate AllHaveFields(ss: seq<Source>) {
    ss == [] ||
    (ss[0].fields != [] && (ss[0].SectionSource? ==> AllHaveFields(ss[0].children)) && AllHaveFields(ss[1..]))
  }

  function AllMeant(ss: seq<Source>): seq<Item>
    requires AllHaveFields(ss)
  {
    if ss == [] then [] else [Meant(ss[0])] + AllMeant(ss[1..])
  }

  function LineText(s: Source): string
    requires s.LineSource?
  {
    s.indent + (FieldsText(s.fields) + s.trail)
  }

  function OpenText(s: Source): string
    requires s.SectionSource?
  {
    s.indent + (("<" + ((FieldsText(s.fields) + s.gap) + ">")) + s.trail)
  }

  function CloseText(s: Source): string
    requires s.SectionSource?
  {
    s.endIndent + ("</" + s.closing)
  }

  function LinesOf(s: Source): seq<string> {
    if s.LineSource? then s.noise + [LineText(s)]
    else s.noise + ([OpenText(s)] + (AllLines(s.children) + (s.endNoise + [CloseText(s)])))
  }

  function AllLines(ss: seq<Source>): seq<string> {
    if ss == [] then [] else LinesOf(ss[0]) + AllLines(ss[1..])
  }

  function TextOf(lines: seq<string>): string {
    if lines == [] then "" else lines[0] + "\n" + TextOf(lines[1..])
  }

  predicate OneLine(text: string) { '\n' !in text }

  /** A physical line that ends neither in a backslash nor in a carriage return, and is only one. */
  predicate Solid(line: string) { OneLine(line) && MayEndHere(line) }

  predicate AllSolid(lines: seq<string>) { forall i :: 0 <= i < |lines| ==> Solid(lines[i]) }

  /** Blanks: every kind of white space. */
  predicate IsBlank(s: string) {
    forall i :: 0 <= i < |s| ==>
      || s[i] in [' ', '\t', '\r', '\U{B}', '\U{C}', '\U{85}', '\U{A0}', '\U{1680}', '\U{2028}', '\U{2029}', '\U{202F}', '\U{205F}', '\U{3000}']
      || '\U{2000}' <= s[i] <= '\U{200A}'
  }

  /** A line that says nothing: blank, or a comment. */
  predicate IsNoise(line: string) {
    Solid(line) && exists n :: 0 <= n <= |line| && IsBlank(line[..n]) && (n == |line| || line[n] == '#')
  }

  predicate AllNoise(lines: seq<string>) { forall i :: 0 <= i < |lines| ==> IsNoise(lines[i]) }

  /** A line of text begins and ends with what is not white space. */
  predicate Trimmed(text: string) { text != "" && !IsSpace(text[0]) && !IsSpace(text[|text| - 1]) }

  predicate WellWritten(s: Source) {
    && AllNoise(s.noise) && IsBlank(s.indent) && IsBlank(s.trail)
    && s.fields != [] && AreFields(s.fields)
    && match s
       case LineSource(_, _, fields, _) =>
         var text := FieldsText(fields);
         Trimmed(text) && text[0] != '#' && text[0] != '<' && Solid(LineText(s))
       case SectionSource(_, _, fields, gap, _, children, endNoise, endIndent, _) =>
         var text := FieldsText(fields);
         && text != "" && text[0] != '/' && IsGap(gap) && Solid(OpenText(s))
         && AllWellWritten(children) && AllNoise(endNoise) && IsBlank(endIndent) && Solid(CloseText(s))
  }

  predicate AllWellWritten(ss: seq<Source>) { ss == [] || (WellWritten(ss[0]) && AllWellWritten(ss[1..])) }

  lemma {:induction false} WellWrittenHasFields(ss: seq<Source>)
    requires AllWellWritten(ss)
    ensures AllHaveFields(ss)
    decreases ss
  {
    if ss != [] {
      if ss[0].SectionSource? {
        WellWrittenHasFields(ss[0].children);
      }
      WellWrittenHasFields(ss[1..]);
    }
  }

  /** Well written, and no directive means something to the parser itself. */
  predicate Printable(s: Source) {
    && WellWritten(s)
    && (s.LineSource? ==> var name := FieldsMeant(s.fields)[0]; !IsServerRoot(name) && !IsInclude(name))
    && (s.SectionSource? ==> AllPrintable(s.children))
  }

  predicate AllPrintable(ss: seq<Source>) { ss == [] || (Printable(ss[0]) && AllPrintable(ss[1..])) }

  lemma {:induction false} PrintableIsWritten(ss: seq<Source>)
    requires AllPrintable(ss)
    ensures AllWellWritten(ss) && AllHaveFields(ss)
  {
    if ss != [] {
      PrintableIsWritten(ss[1..]);
      WellWrittenHasFields(ss);
    }
  }

  function DirectiveOf(i: Item, file: string): Directive {
    Directive(i.name, i.args, if i.Simple? then [] else DirectivesOf(i.children, file), file)
  }

  function DirectivesOf(items: seq<Item>, file: string): seq<Directive> {
    if items == [] then [] else [DirectiveOf(items[0], file)] + DirectivesOf(items[1..], file)
  }

  /** The directives that are written. */
  function Says(ss: seq<Source>, file: string): seq<Directive>
    requires AllHaveFields(ss)
  {
    DirectivesOf(AllMeant(ss), file)
  }

  // Written lines are what they were written as.

  lemma BlankIsSpace(s: string, i: int)
    requires IsBlank(s) && 0 <= i < |s|
    ensures IsSpace(s[i])
  {
  }

  lemma BlankParts(s: string, i: int)
    requires IsBlank(s) && 0 <= i <= |s|
    ensures IsBlank(s[..i]) && IsBlank(s[i..])
  {
  }

  lemma {:induction false} TrimsLeft(indent: string, text: string)
    requires IsBlank(indent) && (text == "" || !IsSpace(text[0]))
    ensures TrimLeft(indent + text) == text
  {
    hide IsBlank, IsSpace;
    if indent == "" {
      assert indent + text == text;
    } else {
      BlankIsSpace(indent, 0);
      BlankParts(indent, 1);
      assert (indent + text)[0] == indent[0] && (indent + text)[1..] == indent[1..] + text;
      TrimsLeft(indent[1..], text);
    }
  }

  lemma TrimsOne(line: string, ch: char)
    requires IsSpace(ch)
    ensures TrimRight(line + [ch]) == TrimRight(line)
  {
    assert (line + [ch])[..|line|] == line;
  }

  lemma {:induction false} TrimsRight(text: string, trail: string)
    requires IsBlank(trail) && (text == "" || !IsSpace(text[|text| - 1]))
    ensures TrimRight(text + trail) == text
    decreases |trail|
  {
    hide IsBlank, IsSpace;
    if trail == "" {
      assert text + trail == text;
    } else {
      var n := |trail| - 1;
      BlankIsSpace(trail, n);
      BlankParts(trail, n);
      TrimsOne(text + trail[..n], trail[n]);
      assert (text + trail[..n]) + [trail[n]] == text + trail;
      TrimsRight(text, trail[..n]);
    }
  }

  /** Blanks around a line make no difference. */
  lemma Trims(indent: string, text: string, trail: string)
    requires IsBlank(indent) && IsBlank(trail) && Trimmed(text)
    ensures TrimSpace(indent + (text + trail)) == text
  {
    hide IsBlank;
    assert (text + trail)[0] == text[0];
    TrimsLeft(indent, text + trail);
    TrimsRight(text, trail);
  }

  lemma {:induction false} KeepsStart(text: string, n: nat)
    requires 0 < n <= |text| && !IsSpace(text[n - 1])
    ensures text[..n] <= TrimRight(text)
    decreases |text|
  {
    hide IsSpace;
    if |text| > n && IsSpace(text[|text| - 1]) {
      assert text[..|text| - 1][..n] == text[..n];
      KeepsStart(text[..|text| - 1], n);
    }
  }

  lemma SimpleLine(s: Source)
    requires s.LineSource? && WellWritten(s)
    ensures LineOf(LineText(s)) == Plain(FieldsMeant(s.fields))
  {
    hide FieldsText, FieldsMeant, Fields, IsBlank, AreFields, Solid, AllNoise;
    var text := FieldsText(s.fields);
    Trims(s.indent, text, s.trail);
    FieldsRoundTrip(s.fields, "");
    assert text + "" == text;
    SomeField(s.fields);
  }

  lemma SomeField(fields: seq<Field>)
    requires fields != []
    ensures FieldsMeant(fields) != []
  {
  }

  lemma SectionLine(s: Source)
    requires s.SectionSource? && WellWritten(s)
    ensures LineOf(OpenText(s)) == Open(FieldsMeant(s.fields))
  {
    hide FieldsText, FieldsMeant, Fields, IsBlank, AreFields, Solid, AllNoise, AllWellWritten;
    var text := FieldsText(s.fields);
    var inner := text + s.gap;
    var line := "<" + (inner + ">");
    assert line[0] == '<' && line[|line| - 1] == '>' && line[1] == text[0];
    assert Trimmed(line) && !("</" <= line);
    Trims(s.indent, line, s.trail);
    assert line[1..] == inner + ">";
    assert WithoutSuffix(line[1..], '>') == inner;
    FieldsRoundTrip(s.fields, s.gap);
    SomeField(s.fields);
  }

  lemma ClosingLine(s: Source)
    requires s.SectionSource? && WellWritten(s)
    ensures LineOf(CloseText(s)) == Close
  {
    hide IsBlank, AreFields, Solid, AllNoise, AllWellWritten;
    var text := "</" + s.closing;
    assert text[0] == '<' && text[1] == '/';
    TrimsLeft(s.endIndent, text);
    KeepsStart(text, 2);
    assert text[..2] == "</";
    assert TrimSpace(CloseText(s)) == TrimRight(text);
  }

  lemma NoiseLine(line: string)
    requires IsNoise(line)
    ensures LineOf(line) == Blank
  {
    hide IsBlank;
    var n :| 0 <= n <= |line| && IsBlank(line[..n]) && (n == |line| || line[n] == '#');
    assert line == line[..n] + line[n..];
    if n < |line| {
      assert line[n..][0] == '#';
      TrimsLeft(line[..n], line[n..]);
      KeepsStart(line[n..], 1);
    } else {
      assert line[..n] == line && line + "" == line;
      TrimsLeft(line, "");
    }
  }

  // What the parser makes of them.

  lemma {:induction false} NoiseParses(fs: FileSystem, b: Bounds, st: ApacheState, noise: seq<string>, rest: seq<string>, file: string, depth: nat)
    requires depth <= b.maxDepth && AllNoise(noise)
    ensures ParseBlock(fs, b, st, noise + rest, file, depth) == ParseBlock(fs, b, st, rest, file, depth)
    decreases |noise|
  {
    hide ParseBlock, LineOf, IsNoise;
    if noise == [] {
      assert noise + rest == rest;
    } else {
      var lines := noise + rest;
      NoiseLine(noise[0]);
      BlockStep(fs, b, st, lines, 0, file, depth);
      assert lines[0..] == lines && lines[1..] == noise[1..] + rest;
      NoiseParses(fs, b, st, noise[1..], rest, file, depth);
    }
  }

  lemma {:induction false} SourceParses(fs: FileSystem, b: Bounds, st: ApacheState, s: Source, rest: seq<string>, file: string, depth: nat)
    requires depth <= b.maxDepth && Printable(s)
    ensures s.fields != [] && (s.SectionSource? ==> AllHaveFields(s.children))
    ensures ParseBlock(fs, b, st, LinesOf(s) + rest, file, depth) ==
      Then([DirectiveOf(Meant(s), file)], ParseBlock(fs, b, st, rest, file, depth))
    decreases s
  {
    hide LineOf, ParseBlock, LineText, OpenText, CloseText, IsServerRoot, IsInclude, AllNoise, IsBlank, Solid, AreFields, FieldsText, FieldsMeant;
    SomeField(s.fields);
    var words := FieldsMeant(s.fields);
    match s
    case LineSource(noise, _, _, _) =>
      var lines := [LineText(s)] + rest;
      assert LinesOf(s) + rest == noise + lines;
      NoiseParses(fs, b, st, noise, lines, file, depth);
      SimpleLine(s);
      BlockStep(fs, b, st, lines, 0, file, depth);
      assert lines[0..] == lines && lines[1..] == rest;
    case SectionSource(noise, _, _, _, _, children, endNoise, _, _) =>
      PrintableIsWritten(children);
      var closing := [CloseText(s)] + rest;
      var body := AllLines(children) + (endNoise + closing);
      var lines := [OpenText(s)] + body;
      SectionRegrouped(noise, [OpenText(s)], AllLines(children), endNoise, [CloseText(s)], rest);
      NoiseParses(fs, b, st, noise, lines, file, depth);
      SectionLine(s);
      BlockStep(fs, b, st, lines, 0, file, depth);
      assert lines[0..] == lines && lines[1..] == body;
      SourcesParse(fs, b, st, children, endNoise + closing, file, depth);
      NoiseParses(fs, b, st, endNoise, closing, file, depth);
      ClosingLine(s);
      BlockStep(fs, b, st, closing, 0, file, depth);
      assert closing[0..] == closing && closing[1..] == rest;
      assert Says(children, file) + [] == Says(children, file);
  }

  lemma SectionRegrouped(a: seq<string>, c: seq<string>, d: seq<string>, e: seq<string>, f: seq<string>, rest: seq<string>)
    ensures (a + (c + (d + (e + f)))) + rest == a + (c + (d + (e + (f + rest))))
  {
    assert (e + f) + rest == e + (f + rest);
    assert (d + (e + f)) + rest == d + (e + (f + rest));
    assert (c + (d + (e + f))) + rest == c + (d + (e + (f + rest)));
  }

  lemma {:induction false} SourcesParse(fs: FileSystem, b: Bounds, st: ApacheState, ss: seq<Source>, rest: seq<string>, file: string, depth: nat)
    requires depth <= b.maxDepth && AllPrintable(ss)
    ensures AllHaveFields(ss)
    ensures ParseBlock(fs, b, st, AllLines(ss) + rest, file, depth) ==
      Then(Says(ss, file), ParseBlock(fs, b, st, rest, file, depth))
    decreases ss
  {
    hide ParseBlock, LinesOf, DirectiveOf, Meant, Printable, Says, AllMeant, AllLines, AllWellWritten, WellWritten, Then;
    PrintableIsWritten(ss);
    var r := ParseBlock(fs, b, st, rest, file, depth);
    if ss == [] {
      NothingSaid(file);
      NoLines(rest);
      ThenNothing(r);
    } else {
      var tail := AllLines(ss[1..]) + rest;
      FirstLines(ss, rest);
      SourceParses(fs, b, st, ss[0], tail, file, depth);
      SourcesParse(fs, b, st, ss[1..], rest, file, depth);
      ThenThen([DirectiveOf(Meant(ss[0]), file)], Says(ss[1..], file), r);
      FirstSaid(ss, file);
    }
  }

  lemma FirstLines(ss: seq<Source>, rest: seq<string>)
    requires ss != []
    ensures AllLines(ss) + rest == LinesOf(ss[0]) + (AllLines(ss[1..]) + rest)
  {
  }

  lemma NoLines(rest: seq<string>)
    ensures AllLines([]) + rest == rest
  {
  }

  lemma NothingSaid(file: string)
    ensures Says([], file) == []
  {
  }

  lemma FirstSaid(ss: seq<Source>, file: string)
    requires AllHaveFields(ss) && ss != []
    ensures Says(ss, file) == [DirectiveOf(Meant(ss[0]), file)] + Says(ss[1..], file)
  {
    var items := AllMeant(ss);
    assert items == [Meant(ss[0])] + AllMeant(ss[1..]);
    assert items[0] == Meant(ss[0]) && items[1..] == AllMeant(ss[1..]);
  }

  // Written text is its lines again, broken or not.

  lemma {:induction false} OneLineSplits(line: string)
    requires OneLine(line)
    ensures Split(line) == [line]
  {
    if line != "" {
      OneLineSplits(line[1..]);
      assert line[0] in line && forall ch :: ch in line[1..] ==> ch in line;
      assert [line[0]] + line[1..] == line;
    }
  }

  lemma {:induction false} TextSplits(lines: seq<string>)
    requires AllSolid(lines)
    ensures Split(TextOf(lines)) == lines + [""]
  {
    hide Glued, Split;
    if lines == [] {
      OneLineSplits("");
      assert lines + [""] == [""];
    } else {
      var line, tail := lines[0], TextOf(lines[1..]);
      TextSplits(lines[1..]);
      OneLineSplits(line);
      assert TextOf(lines) == line + ("\n" + tail);
      LineEndSplits(tail);
      SplitAppend(line, "\n" + tail);
      GluedToLine(line, Split(tail));
      assert [line] + (lines[1..] + [""]) == lines + [""];
    }
  }

  lemma LineEndSplits(tail: string)
    ensures Split("\n" + tail) == [""] + Split(tail)
  {
    assert ("\n" + tail)[1..] == tail;
  }

  lemma GluedToLine(line: string, rest: seq<string>)
    ensures Glued([line], [""] + rest) == [line] + rest
  {
    assert [line][..0] == [] && line + "" == line && ([""] + rest)[1..] == rest;
  }

  lemma {:induction false} SolidLinesStay(lines: seq<string>)
    requires AllSolid(lines)
    ensures Joined(lines, "") == lines
  {
    if lines != [] {
      SolidLinesStay(lines[1..]);
      assert Solid(lines[0]);
      assert TrimCR(lines[0]) == lines[0] && !Continues(lines[0]);
      assert "" + lines[0] == lines[0] && [lines[0]] + lines[1..] == lines;
    }
  }

  lemma NoiseIsSolid(lines: seq<string>)
    requires AllNoise(lines)
    ensures AllSolid(lines)
  {
    forall i | 0 <= i < |lines| ensures Solid(lines[i]) {
      assert IsNoise(lines[i]);
    }
  }

  lemma {:induction false} SourceIsSolid(s: Source)
    requires WellWritten(s)
    ensures AllSolid(LinesOf(s))
    decreases s
  {
    hide IsNoise, Solid, AreFields, FieldsText, IsBlank;
    NoiseIsSolid(s.noise);
    if s.SectionSource? {
      NoiseIsSolid(s.endNoise);
      SourcesAreSolid(s.children);
    }
  }

  lemma {:induction false} SourcesAreSolid(ss: seq<Source>)
    requires AllWellWritten(ss)
    ensures AllSolid(AllLines(ss))
    decreases ss
  {
    hide Solid, WellWritten;
    if ss != [] {
      SourceIsSolid(ss[0]);
      SourcesAreSolid(ss[1..]);
    }
  }

  /** The logical lines of a text of solid lines, broken over as many lines and at whatever places one likes. */
  lemma BrokenLines(lines: seq<string>, pieces: seq<string>)
    requires AllSolid(lines) && Whole(pieces) == TextOf(lines)
    ensures LogicalLines(Broken(pieces)) == lines + [""]
  {
    TextSplits(lines);
    SolidLinesStay(lines + [""]);
    assert "" + Whole(pieces) == Whole(pieces) && "" + Broken(pieces) == Broken(pieces);
    BreaksAnywhere("", pieces);
    BreaksChangeNothing("", pieces);
  }

  /** Any configuration, however written and broken over as many lines and at whatever places one likes,
      parses to what it means: names and arguments bare or in quotes, with blanks, quotes, angle brackets,
      comment signs and backslashes in them, or empty; lines indented, and comments and blank lines between. */
  lemma ApacheRoundTrip(fs: FileSystem, b: Bounds, st: ApacheState, ss: seq<Source>, end: seq<string>, pieces: seq<string>, file: string, depth: nat)
    requires depth <= b.maxDepth && AllPrintable(ss) && AllNoise(end)
    requires Whole(pieces) == TextOf(AllLines(ss) + end)
    ensures AllHaveFields(ss)
    ensures ParseBlock(fs, b, st, LogicalLines(Broken(pieces)), file, depth) == Parsed(st, Says(ss, file), [])
  {
    hide ParseBlock, AllSolid, AllNoise;
    PrintableIsWritten(ss);
    LinesAreSolid(ss, end);
    BrokenLines(AllLines(ss) + end, pieces);
    assert AllLines(ss) + end + [""] == AllLines(ss) + (end + [""]);
    SourcesParse(fs, b, st, ss, end + [""], file, depth);
    NoiseParses(fs, b, st, end, [""], file, depth);
    EmptyLineIsNothing(fs, b, st, file, depth);
    ThenStops(Says(ss, file), st, []);
  }

  lemma LinesAreSolid(ss: seq<Source>, end: seq<string>)
    requires AllWellWritten(ss) && AllNoise(end)
    ensures AllSolid(AllLines(ss) + end)
  {
    SourcesAreSolid(ss);
    NoiseIsSolid(end);
  }

  lemma EmptyLineIsNothing(fs: FileSystem, b: Bounds, st: ApacheState, file: string, depth: nat)
    requires depth <= b.maxDepth
    ensures ParseBlock(fs, b, st, [""], file, depth) == Parsed(st, [], [])
  {
    assert LineOf("") == Blank;
  }

  // ── every tree can be written ──────────────────────────────────────────────

  function ArgFields(args: seq<string>): seq<Field> {
    if args == [] then [] else [QuotedField(" ", args[0])] + ArgFields(args[1..])
  }

  function ItemFields(name: string, args: seq<string>): seq<Field> { [QuotedField("", name)] + ArgFields(args) }

  function Written(i: Item): Source {
    match i
    case Simple(name, args) => LineSource([], "", ItemFields(name, args), "")
    case Section(name, args, children) =>
      SectionSource([], "", ItemFields(name, args), "", "", AllWritten(children), [], "", ">")
  }

  function AllWritten(items: seq<Item>): seq<Source> {
    if items == [] then [] else [Written(items[0])] + AllWritten(items[1..])
  }

  /** No word spans lines: the one thing that cannot be written. */
  predicate OnOneLine(i: Item) {
    && OneLine(i.name) && (forall a :: a in i.args ==> OneLine(a))
    && (i.Section? ==> AllOnOneLine(i.children))
  }

  predicate AllOnOneLine(items: seq<Item>) { items == [] || (OnOneLine(items[0]) && AllOnOneLine(items[1..])) }

  lemma {:induction false} ArgFieldsMean(args: seq<string>)
    ensures (forall i :: 0 <= i < |ArgFields(args)| ==> IsField(ArgFields(args)[i]) && ArgFields(args)[i].gap == " ")
    ensures FieldsMeant(ArgFields(args)) == args
  {
    hide IsField, PiecesMeant, QuotedField;
    if args != [] {
      QuotedFieldMeans(" ", args[0]);
      QuotedFieldGap(" ", args[0]);
      ArgFieldsMean(args[1..]);
      assert [args[0]] + args[1..] == args;
    }
  }

  lemma {:induction false} ArgFieldsEnd(args: seq<string>)
    requires forall a :: a in args ==> OneLine(a)
    ensures OneLine(FieldsText(ArgFields(args)))
    ensures args != [] ==> var text := FieldsText(ArgFields(args)); text != "" && text[|text| - 1] in ['"', '\'']
  {
    hide IsField, PiecesText, PiecesMeant, QuotedField, OneLine;
    if args == [] {
      NothingIsOneLine();
    } else {
      NothingIsOneLine();
      ArgIsOneLine(args[0]) by { assert args[0] in args; }
      QuotedFieldGap(" ", args[0]);
      ArgFieldsEnd(args[1..]);
      var f, rest := QuotedField(" ", args[0]), ArgFields(args[1..]);
      assert ArgFields(args)[0] == f && ArgFields(args)[1..] == rest;
      EndsLike(" ", PiecesText(f.pieces), FieldsText(rest));
    }
  }

  lemma NothingIsOneLine()
    ensures OneLine("") && OneLine(" ")
  {
  }

  lemma ArgIsOneLine(word: string)
    requires OneLine(word)
    ensures var text := PiecesText(QuotedField(" ", word).pieces); text != "" && text[|text| - 1] in ['"', '\''] && OneLine(text)
  {
    QuotedFieldMeans(" ", word);
  }

  /** A text ends as its last part that has anything in it. */
  lemma EndsLike(a: string, c: string, d: string)
    requires c != ""
    ensures var text := a + (c + d);
      text != "" && text[|text| - 1] == if d == "" then c[|c| - 1] else d[|d| - 1]
    ensures OneLine(a) && OneLine(c) && OneLine(d) ==> OneLine(a + (c + d))
  {
  }

  lemma QuotedFieldGap(gap: string, word: string)
    ensures QuotedField(gap, word).gap == gap
  {
  }

  lemma ItemFieldsMean(name: string, args: seq<string>)
    requires OneLine(name) && forall a :: a in args ==> OneLine(a)
    ensures AreFields(ItemFields(name, args)) && FieldsMeant(ItemFields(name, args)) == [name] + args
    ensures OneLine(FieldsText(ItemFields(name, args)))
    ensures var text := FieldsText(ItemFields(name, args));
      text != "" && text[0] == '"' && text[|text| - 1] in ['"', '\'']
  {
    hide IsField, PiecesText, PiecesMeant, QuotedField;
    QuotedFieldMeans("", name);
    QuotedFieldGap("", name);
    ArgFieldsMean(args);
    ArgFieldsEnd(args);
    var f, rest := QuotedField("", name), ArgFields(args);
    assert ItemFields(name, args)[1..] == rest;
    assert FieldsText(ItemFields(name, args)) == "" + (PiecesText(f.pieces) + FieldsText(rest));
    EndsLike("", PiecesText(f.pieces), FieldsText(rest));
  }

  lemma {:induction false} WrittenIsWell(i: Item)
    requires OnOneLine(i)
    ensures WellWritten(Written(i))
    ensures Written(i).fields != [] && (i.Section? ==> AllHaveFields(Written(i).children)) && Meant(Written(i)) == i
    decreases i
  {
    hide FieldsText, FieldsMeant, AreFields, QuotedField, ArgFields;
    ItemFieldsMean(i.name, i.args);
    var s, text := Written(i), FieldsText(ItemFields(i.name, i.args));
    assert ([i.name] + i.args)[0] == i.name && ([i.name] + i.args)[1..] == i.args;
    match i
    case Simple(_, _) =>
      assert LineText(s) == text by { assert "" + (text + "") == text; }
    case Section(_, _, children) =>
      AllWrittenIsWell(children);
      assert OpenText(s) == "<" + (text + ">") by { assert "" + (("<" + ((text + "") + ">")) + "") == "<" + (text + ">"); }
      assert CloseText(s) == "</>" by { assert "" + ("</" + ">") == "</>"; }
      assert WellWritten(s) by { SectionIsWell(s, text); }
  }

  lemma SectionIsWell(s: Source, text: string)
    requires s.SectionSource? && s.noise == [] && s.endNoise == [] && s.indent == s.trail == s.gap == s.endIndent == ""
    requires text == FieldsText(s.fields) && s.fields != [] && AreFields(s.fields)
    requires text != "" && text[0] == '"' && OneLine(text)
    requires OpenText(s) == "<" + (text + ">") && CloseText(s) == "</>" && AllWellWritten(s.children)
    ensures WellWritten(s)
  {
    hide FieldsText, AreFields;
    assert Solid(CloseText(s));
    assert Solid(OpenText(s));
  }

  /** Every tree whose words stay on one line can be written, whatever else is in them. */
  lemma {:induction false} AllWrittenIsWell(items: seq<Item>)
    requires AllOnOneLine(items)
    ensures AllWellWritten(AllWritten(items)) && AllHaveFields(AllWritten(items)) && AllMeant(AllWritten(items)) == items
    decreases items
  {
    hide WellWritten;
    if items != [] {
      WrittenIsWell(items[0]);
      AllWrittenIsWell(items[1..]);
    }
  }

  // ── includes, and the server root ──────────────────────────────────────────

  /** The name is this word, each letter in either case. */
  predicate SpelledAs(name: string, word: string) {
    |name| == |word| && forall i :: 0 <= i < |name| ==> SameLetter(name[i], word[i])
  }

  predicate SameLetter(ch: char, lower: char) { ch == lower || ('a' <= lower <= 'z' && ch == lower - 'a' + 'A') }

  /** A line with an argument and this name. */
  predicate IsLine(s: Source, word: string, arg: string) {
    && s.LineSource? && WellWritten(s)
    && var words := FieldsMeant(s.fields); |words| > 1 && words[1] == arg && SpelledAs(words[0], word)
  }

  predicate IsServerRootLine(s: Source, dir: string) { IsLine(s, "serverroot", dir) }

  predicate IsIncludeLine(s: Source, pattern: string) { IsLine(s, "include", pattern) || IsLine(s, "includeoptional", pattern) }

  lemma LowersTo(name: string, word: string)
    requires SpelledAs(name, word) && forall i :: 0 <= i < |word| ==> 'a' <= word[i] <= 'z'
    ensures Lower(name) == word
  {
    forall i | 0 <= i < |name| ensures Lower(name)[i] == word[i] {
      assert SameLetter(name[i], word[i]);
    }
  }

  lemma ServerRootNamed(name: string)
    requires SpelledAs(name, "serverroot")
    ensures IsServerRoot(name)
  {
    hide SpelledAs, Lower;
    LowersTo(name, "serverroot");
  }

  lemma IncludeNamed(name: string)
    requires SpelledAs(name, "include") || SpelledAs(name, "includeoptional")
    ensures IsInclude(name) && !IsServerRoot(name)
  {
    hide SpelledAs, Lower;
    if SpelledAs(name, "include") {
      LowersTo(name, "include");
    } else {
      LowersTo(name, "includeoptional");
    }
    assert "serverroot"[0] != "include"[0] && "serverroot"[0] != "includeoptional"[0];
  }

  lemma ServerRootLineMeans(s: Source, dir: string)
    requires IsServerRootLine(s, dir)
    ensures s.fields != [] && IsServerRoot(FieldsMeant(s.fields)[0])
  {
    hide SpelledAs, IsServerRoot;
    ServerRootNamed(FieldsMeant(s.fields)[0]);
  }

  lemma IncludeLineMeans(s: Source, pattern: string)
    requires IsIncludeLine(s, pattern)
    ensures s.fields != []
    ensures IsInclude(FieldsMeant(s.fields)[0]) && !IsServerRoot(FieldsMeant(s.fields)[0])
  {
    hide SpelledAs, IsServerRoot, IsInclude;
    IncludeNamed(FieldsMeant(s.fields)[0]);
  }

  /** A ServerRoot line says nothing itself and is what later includes are relative to. */
  lemma ServerRootMoves(fs: FileSystem, b: Bounds, st: ApacheState, s: Source, dir: string, rest: seq<string>, file: string, depth: nat)
    requires depth <= b.maxDepth && IsServerRootLine(s, dir)
    ensures ParseBlock(fs, b, st, LinesOf(s) + rest, file, depth) ==
      ParseBlock(fs, b, st.(serverRoot := dir), rest, file, depth)
  {
    hide LineOf, ParseBlock, LineText, IsServerRoot, AllNoise, IsBlank, Solid, AreFields, FieldsText, FieldsMeant;
    var lines := [LineText(s)] + rest;
    assert LinesOf(s) + rest == s.noise + lines;
    NoiseParses(fs, b, st, s.noise, lines, file, depth);
    SimpleLine(s);
    ServerRootLineMeans(s, dir);
    BlockStep(fs, b, st, lines, 0, file, depth);
    assert lines[0..] == lines && lines[1..] == rest;
    ThenNothing(ParseBlock(fs, b, st.(serverRoot := dir), rest, file, depth));
  }

  function FileTexts(written: seq<seq<Source>>): seq<string> {
    if written == [] then [] else [TextOf(AllLines(written[0]))] + FileTexts(written[1..])
  }

  predicate FilesPrintable(written: seq<seq<Source>>) {
    written == [] || (AllPrintable(written[0]) && AllHaveFields(written[0]) && FilesPrintable(written[1..]))
  }

  /** The directives of the files in order, each as from its own file. */
  function FilesSay(written: seq<seq<Source>>, paths: seq<string>): seq<Directive>
    requires |paths| == |written| && FilesPrintable(written)
  {
    if written == [] then [] else Says(written[0], paths[0]) + FilesSay(written[1..], paths[1..])
  }

  lemma FileParses(fs: FileSystem, b: Bounds, st: ApacheState, path: string, ss: seq<Source>, depth: nat)
    requires depth <= b.maxDepth && AllPrintable(ss)
    ensures AllHaveFields(ss)
    ensures ParseBlock(fs, b, st, LogicalLines(TextOf(AllLines(ss))), path, depth) == Parsed(st, Says(ss, path), [])
  {
    var text := TextOf(AllLines(ss));
    assert AllLines(ss) + [] == AllLines(ss);
    assert Whole([text]) == text + "" == text;
    ApacheRoundTrip(fs, b, st, ss, [], [text], path, depth);
  }

  lemma {:induction false} MatchesSplice(fs: FileSystem, b: Bounds, st: ApacheState, paths: seq<string>, written: seq<seq<Source>>, depth: nat)
    requires depth < b.maxDepth && |paths| == |written| && FilesPrintable(written)
    requires Unread(fs, b, st.reader, paths, FileTexts(written))
    ensures ParseMatches(fs, b, st, paths, depth) ==
      (st.(reader := AfterReading(fs, st.reader, paths)), FilesSay(written, paths))
    decreases |paths|
  {
    hide ParseBlock, Unread, AllPrintable, AllHaveFields, Says;
    if paths == [] {
      NothingRead(fs, st.reader);
    } else {
      ReadsFirst(fs, b, st.reader, paths, FileTexts(written));
      var st' := st.(reader := AfterReading(fs, st.reader, [paths[0]]));
      FileParses(fs, b, st', paths[0], written[0], depth + 1);
      MatchesSplice(fs, b, st', paths[1..], written[1..], depth);
    }
  }

  /** An include line stands for what the files it names say, file after file. */
  lemma IncludeLineSplices(
      fs: FileSystem, b: Bounds, st: ApacheState, s: Source, pattern: string, rest: seq<string>,
      paths: seq<string>, written: seq<seq<Source>>, file: string, depth: nat)
    requires depth < b.maxDepth && IsIncludeLine(s, pattern) && fs.glob(pattern, st.serverRoot) == Matches(paths)
    requires |paths| == |written| && FilesPrintable(written) && Unread(fs, b, st.reader, paths, FileTexts(written))
    ensures ParseBlock(fs, b, st, LinesOf(s) + rest, file, depth) ==
      Then(FilesSay(written, paths),
           ParseBlock(fs, b, st.(reader := AfterReading(fs, st.reader, paths)), rest, file, depth))
  {
    hide LineOf, ParseBlock, ParseMatches, LineText, IsInclude, IsServerRoot, AllNoise, IsBlank, Solid, AreFields, FieldsText, FieldsMeant;
    hide Unread, FilesPrintable, FilesSay, AfterReading;
    var lines := [LineText(s)] + rest;
    assert LinesOf(s) + rest == s.noise + lines;
    NoiseParses(fs, b, st, s.noise, lines, file, depth);
    SimpleLine(s);
    IncludeLineMeans(s, pattern);
    BlockStep(fs, b, st, lines, 0, file, depth);
    assert lines[0..] == lines && lines[1..] == rest;
    MatchesSplice(fs, b, st, paths, written, depth);
  }

  /** A configuration that names its server root and includes files relative to it, whatever stands before,
      between and behind, and whatever section it is all in. */
  lemma IncludeSplices(
      fs: FileSystem, b: Bounds, st: ApacheState, before: seq<Source>, root: Source, dir: string, between: seq<Source>,
      inclusion: Source, pattern: string, after: seq<Source>, rest: seq<string>,
      paths: seq<string>, written: seq<seq<Source>>, file: string, depth: nat)
    requires depth < b.maxDepth && AllPrintable(before) && AllPrintable(between) && AllPrintable(after)
    requires IsServerRootLine(root, dir) && IsIncludeLine(inclusion, pattern) && fs.glob(pattern, dir) == Matches(paths)
    requires |paths| == |written| && FilesPrintable(written) && Unread(fs, b, st.reader, paths, FileTexts(written))
    ensures AllHaveFields(before) && AllHaveFields(between) && AllHaveFields(after)
    ensures var lines :=
        AllLines(before) + (LinesOf(root) + (AllLines(between) + (LinesOf(inclusion) + (AllLines(after) + rest))));
      var nodes := Says(before, file) + (Says(between, file) + (FilesSay(written, paths) + Says(after, file)));
      ParseBlock(fs, b, st, lines, file, depth) ==
      Then(nodes, ParseBlock(fs, b, ApacheState(AfterReading(fs, st.reader, paths), dir), rest, file, depth))
  {
    hide ParseBlock, AllPrintable, AllHaveFields, Says, FilesSay, FilesPrintable, Unread, AfterReading, LinesOf, AllLines, IsLine;
    var moved := st.(serverRoot := dir);
    var end := ApacheState(AfterReading(fs, st.reader, paths), dir);
    var last := ParseBlock(fs, b, end, rest, file, depth);
    var tail := AllLines(after) + rest;
    var included := LinesOf(inclusion) + tail;
    SourcesParse(fs, b, st, before, LinesOf(root) + (AllLines(between) + included), file, depth);
    ServerRootMoves(fs, b, st, root, dir, AllLines(between) + included, file, depth);
    SourcesParse(fs, b, moved, between, included, file, depth);
    IncludeLineSplices(fs, b, moved, inclusion, pattern, tail, paths, written, file, depth);
    SourcesParse(fs, b, end, after, rest, file, depth);
    ThenThen(FilesSay(written, paths), Says(after, file), last);
    ThenThen(Says(between, file), FilesSay(written, paths) + Says(after, file), last);
    ThenThen(Says(before, file), Says(between, file) + (FilesSay(written, paths) + Says(after, file)), last);
  }

  /** The same as a whole file: what is before, between and behind it says as from this file, and in its
      place what the included files say, as from theirs. */
  lemma FileWithInclude(
      fs: FileSystem, b: Bounds, st: ApacheState, path: string, before: seq<Source>, root: Source, dir: string, between: seq<Source>,
      inclusion: Source, pattern: string, after: seq<Source>, paths: seq<string>, written: seq<seq<Source>>, depth: nat)
    requires depth < b.maxDepth && AllPrintable(before) && AllPrintable(between) && AllPrintable(after)
    requires IsServerRootLine(root, dir) && IsIncludeLine(inclusion, pattern) && fs.glob(pattern, dir) == Matches(paths)
    requires |paths| == |written| && FilesPrintable(written)
    requires Unread(fs, b, st.reader, [path] + paths, [TextOf(FileLines(before, root, between, inclusion, after))] + FileTexts(written))
    ensures AllHaveFields(before) && AllHaveFields(between) && AllHaveFields(after)
    ensures ParseFile(fs, b, st, path, depth) ==
      (ApacheState(AfterReading(fs, st.reader, [path] + paths), dir),
       Some(Says(before, path) + (Says(between, path) + (FilesSay(written, paths) + Says(after, path)))))
  {
    hide ParseBlock, AllPrintable, AllHaveFields, Says, FilesSay, FilesPrintable, Unread, AfterReading, LinesOf, AllLines, FileTexts, LogicalLines, FileLines;
    var lines := FileLines(before, root, between, inclusion, after);
    var texts := [TextOf(lines)] + FileTexts(written);
    ReadsFirst(fs, b, st.reader, [path] + paths, texts);
    assert ([path] + paths)[1..] == paths && texts[1..] == FileTexts(written);
    var st' := st.(reader := AfterReading(fs, st.reader, [path]));
    FileLinesStay(before, root, dir, between, inclusion, pattern, after);
    IncludeSplices(fs, b, st', before, root, dir, between, inclusion, pattern, after, [""], paths, written, path, depth);
    var end := ApacheState(AfterReading(fs, st'.reader, paths), dir);
    EmptyLineIsNothing(fs, b, end, path, depth);
    ThenStops(Says(before, path) + (Says(between, path) + (FilesSay(written, paths) + Says(after, path))), end, []);
  }

  function FileLines(before: seq<Source>, root: Source, between: seq<Source>, inclusion: Source, after: seq<Source>): seq<string> {
    AllLines(before) + (LinesOf(root) + (AllLines(between) + (LinesOf(inclusion) + AllLines(after))))
  }

  lemma FileLinesStay(before: seq<Source>, root: Source, dir: string, between: seq<Source>, inclusion: Source, pattern: string, after: seq<Source>)
    requires AllPrintable(before) && AllPrintable(between) && AllPrintable(after)
    requires IsServerRootLine(root, dir) && IsIncludeLine(inclusion, pattern)
    ensures LogicalLines(TextOf(FileLines(before, root, between, inclusion, after))) ==
      AllLines(before) + (LinesOf(root) + (AllLines(between) + (LinesOf(inclusion) + (AllLines(after) + [""]))))
  {
    hide LinesOf, AllLines, WellWritten, LogicalLines, Solid;
    var lines := FileLines(before, root, between, inclusion, after);
    PrintableIsWritten(before);
    PrintableIsWritten(between);
    PrintableIsWritten(after);
    SourcesAreSolid(before);
    SourcesAreSolid(between);
    SourcesAreSolid(after);
    SourceIsSolid(root);
    SourceIsSolid(inclusion);
    assert Whole([TextOf(lines)]) == TextOf(lines) + "" == TextOf(lines);
    BrokenLines(lines, [TextOf(lines)]);
    SectionRegrouped(AllLines(before), LinesOf(root), AllLines(between), LinesOf(inclusion), AllLines(after), [""]);
  }

  /** Below the depth an include adds nothing, and each file it names is noted. */
  lemma {:induction false} TooDeepIsNoted(fs: FileSystem, b: Bounds, st: ApacheState, paths: seq<string>)
    ensures var (st', nodes) := ParseMatches(fs, b, st, paths, b.maxDepth);
      && nodes == [] && st'.serverRoot == st.serverRoot
      && st'.reader.visited == st.reader.visited && st'.reader.filesRead == st.reader.filesRead
      && st'.reader.problems == st.reader.problems +
           seq(|paths|, i requires 0 <= i < |paths| => Problem(paths[i], ParseFailed(IncludesTooDeep)))
    decreases |paths|
  {
    if paths != [] {
      TooDeepIsNoted(fs, b, st.(reader := st.reader.Note(paths[0], ParseFailed(IncludesTooDeep))), paths[1..]);
    }
  }

  // ── the parser as the agent runs it ────────────────────────────────────────

  class ApacheParser {
    const r: ConfigReader
    var serverRoot: string

    constructor (r: ConfigReader, serverRoot: string)
      ensures this.r == r && Now() == ApacheState(r.Now(), serverRoot)
    {
      this.r, this.serverRoot := r, serverRoot;
    }

    function Now(): ApacheState
      reads this, r
    {
      ApacheState(r.Now(), serverRoot)
    }

    method File(path: string, depth: nat) returns (nodes: Option<seq<Directive>>)
      requires depth <= r.bounds.maxDepth + 1
      modifies this, r
      ensures (Now(), nodes) == ParseFile(r.fs, r.bounds, old(Now()), path, depth)
      decreases r.bounds.maxDepth + 1 - depth, 2, 0
    {
      if depth > r.bounds.maxDepth {
        return None;
      }
      var data := r.Read(path);
      if data.None? {
        return Some([]);
      }
      var lines := ApacheLogicalLines(data.value);
      assert lines[0..] == lines;
      var parsed, used := Block(lines, 0, path, depth);
      return Some(parsed);
    }

    /** Splices in every file an include names. */
    method Include(paths: seq<string>, depth: nat) returns (nodes: seq<Directive>)
      requires depth <= r.bounds.maxDepth
      modifies this, r
      ensures (Now(), nodes) == ParseMatches(r.fs, r.bounds, old(Now()), paths, depth)
      decreases r.bounds.maxDepth + 1 - depth, 0, |paths|
    {
      nodes := [];
      assert paths[0..] == paths;
      ghost var whole := ParseMatches(r.fs, r.bounds, Now(), paths, depth);
      assert [] + whole.1 == whole.1;
      for i := 0 to |paths|
        invariant whole == Spliced(nodes, ParseMatches(r.fs, r.bounds, Now(), paths[i..], depth))
      {
        ghost var before, rest := nodes, paths[i..];
        assert rest[1..] == paths[i + 1..];
        var included := File(paths[i], depth + 1);
        if included.None? {
          r.Note(paths[i], ParseFailed(IncludesTooDeep));
          continue;
        }
        nodes := nodes + included.value;
        SplicedStep(before, included.value, ParseMatches(r.fs, r.bounds, Now(), rest[1..], depth));
      }
      assert paths[|paths|..] == [] && nodes + [] == nodes;
    }

    method Directives(parts: seq<string>, file: string, depth: nat) returns (nodes: seq<Directive>)
      requires depth <= r.bounds.maxDepth && parts != []
      modifies this, r
      ensures (Now(), nodes) == ParseSimple(r.fs, r.bounds, old(Now()), parts, file, depth)
      decreases r.bounds.maxDepth + 1 - depth, 1, 0
    {
      if IsServerRoot(parts[0]) {
        if |parts| > 1 {
          serverRoot := parts[1];
        }
        return [];
      }
      if IsInclude(parts[0]) {
        if |parts| == 1 {
          return [];
        }
        var paths := r.Expand(parts[1], serverRoot);
        nodes := Include(paths, depth);
        return;
      }
      return [Directive(parts[0], parts[1..], [], file)];
    }

    /** The block that starts at a line; `used` is where the line that closes it is, or the end. */
    method Block(lines: seq<string>, start: nat, file: string, depth: nat) returns (nodes: seq<Directive>, used: nat)
      requires depth <= r.bounds.maxDepth && start <= |lines|
      modifies this, r
      ensures start <= used <= |lines|
      ensures Parsed(Now(), nodes, lines[used..]) == ParseBlock(r.fs, r.bounds, old(Now()), lines[start..], file, depth)
      decreases r.bounds.maxDepth + 1 - depth, 1, |lines| - start
    {
      hide ParseBlock, ParseSimple, LineOf, IsServerRoot, IsInclude;
      nodes := [];
      ghost var whole := ParseBlock(r.fs, r.bounds, Now(), lines[start..], file, depth);
      ThenNothing(whole);
      var i := start;
      while i < |lines|
        invariant start <= i <= |lines|
        invariant whole == Then(nodes, ParseBlock(r.fs, r.bounds, Now(), lines[i..], file, depth))
      {
        var line := TrimSpace(lines[i]);
        BlockStep(r.fs, r.bounds, Now(), lines, i, file, depth);
        LineOfTrimmed(lines[i], line, if line != "" && line[0] == '<' then Fields(WithoutSuffix(line[1..], '>')) else Fields(line));
        if |line| == 0 || line[0] == '#' {
          i := i + 1;
          continue;
        }
        if "</" <= line {
          ThenStops(nodes, Now(), lines[i..]);
          return nodes, i;
        }
        ghost var before := nodes;
        if line[0] == '<' {
          var inside := ApacheFields(WithoutSuffix(line[1..], '>'));
          if |inside| == 0 {
            i := i + 1;
            continue;
          }
          var children, end := Block(lines, i + 1, file, depth);
          nodes := nodes + [Directive(inside[0], inside[1..], children, file)];
          assert end < |lines| ==> lines[end..][1..] == lines[end + 1..];
          i := Basics.Min(end + 1, |lines|);
          assert lines[|lines|..] == [];
          ThenThen(before, [Directive(inside[0], inside[1..], children, file)], ParseBlock(r.fs, r.bounds, Now(), lines[i..], file, depth));
          continue;
        }
        var parts := ApacheFields(line);
        if |parts| == 0 {
          i := i + 1;
          continue;
        }
        var more := Directives(parts, file, depth);
        nodes, i := nodes + more, i + 1;
        ThenThen(before, more, ParseBlock(r.fs, r.bounds, Now(), lines[i..], file, depth));
      }
      EndsBlock(r.fs, r.bounds, Now(), file, depth);
      assert lines[|lines|..] == [] && nodes + [] == nodes;
      used := |lines|;
    }
  }

  ghost function Spliced(nodes: seq<Directive>, r: (ApacheState, seq<Directive>)): (ApacheState, seq<Directive>) {
    (r.0, nodes + r.1)
  }

  lemma SplicedStep(a: seq<Directive>, c: seq<Directive>, r: (ApacheState, seq<Directive>))
    ensures Spliced(a, (r.0, c + r.1)) == Spliced(a + c, r)
  {
    assert a + (c + r.1) == a + c + r.1;
  }

  lemma ThenNothing(r: Parsed)
    ensures Then([], r) == r
  {
    assert [] + r.nodes == r.nodes;
  }

  lemma ThenStops(nodes: seq<Directive>, st: ApacheState, rest: seq<string>)
    ensures Then(nodes, Parsed(st, [], rest)) == Parsed(st, nodes, rest)
  {
    assert nodes + [] == nodes;
  }

  lemma ThenThen(a: seq<Directive>, c: seq<Directive>, r: Parsed)
    ensures Then(a, Then(c, r)) == Then(a + c, r)
  {
    assert a + (c + r.nodes) == a + c + r.nodes;
  }

  lemma EndsBlock(fs: FileSystem, b: Bounds, st: ApacheState, file: string, depth: nat)
    requires depth <= b.maxDepth
    ensures ParseBlock(fs, b, st, [], file, depth) == Parsed(st, [], [])
  {
  }

  lemma LineOfTrimmed(raw: string, line: string, parts: seq<string>)
    requires line == TrimSpace(raw)
    ensures line == "" || line[0] == '#' ==> LineOf(raw) == Blank
    ensures "</" <= line ==> LineOf(raw) == Close
    ensures line != "" && line[0] == '<' && !("</" <= line) && parts == Fields(WithoutSuffix(line[1..], '>')) ==>
      LineOf(raw) == if parts == [] then Blank else Open(parts)
    ensures line != "" && line[0] != '<' && line[0] != '#' && parts == Fields(line) ==>
      LineOf(raw) == if parts == [] then Blank else Plain(parts)
  {
  }

  ghost function AfterSection(fs: FileSystem, b: Bounds, inner: Parsed, parts: seq<string>, file: string, depth: nat): Parsed
    requires depth <= b.maxDepth && parts != []
  {
    Then([Directive(parts[0], parts[1..], inner.nodes, file)],
      ParseBlock(fs, b, inner.st, if inner.rest == [] then [] else inner.rest[1..], file, depth))
  }

  ghost function AfterSimple(fs: FileSystem, b: Bounds, r: (ApacheState, seq<Directive>), rest: seq<string>, file: string, depth: nat): Parsed
    requires depth <= b.maxDepth
  {
    Then(r.1, ParseBlock(fs, b, r.0, rest, file, depth))
  }

  /** The block from one line on, by what the line is. */
  lemma BlockStep(fs: FileSystem, b: Bounds, st: ApacheState, lines: seq<string>, i: nat, file: string, depth: nat)
    requires depth <= b.maxDepth && i < |lines|
    ensures LineOf(lines[i]).Blank? ==>
      ParseBlock(fs, b, st, lines[i..], file, depth) == ParseBlock(fs, b, st, lines[i + 1..], file, depth)
    ensures LineOf(lines[i]).Close? ==>
      ParseBlock(fs, b, st, lines[i..], file, depth) == Parsed(st, [], lines[i..])
    ensures LineOf(lines[i]).Open? ==>
      ParseBlock(fs, b, st, lines[i..], file, depth) ==
      AfterSection(fs, b, ParseBlock(fs, b, st, lines[i + 1..], file, depth), LineOf(lines[i]).parts, file, depth)
    ensures LineOf(lines[i]).Plain? ==>
      ParseBlock(fs, b, st, lines[i..], file, depth) ==
      AfterSimple(fs, b, ParseSimple(fs, b, st, LineOf(lines[i]).parts, file, depth), lines[i + 1..], file, depth)
  {
    hide LineOf;
    assert lines[i..][1..] == lines[i + 1..];
  }
}
