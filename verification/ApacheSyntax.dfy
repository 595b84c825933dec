/** Apache configuration as text: physical lines into logical ones, and a line into its fields. */
module ApacheSyntax {
  import opened Basics

  // ── lines ──────────────────────────────────────────────────────────────────

  /** The physical lines of a text: always one more than it has line ends. */
  function Split(src: string): (lines: seq<string>)
    ensures lines != []
  {
    if src == "" then [""] else
    var rest := Split(src[1..]);
    if src[0] == '\n' then [""] + rest else [[src[0]] + rest[0]] + rest[1..]
  }

  function TrimCR(line: string): (r: string)
    ensures r <= line
  {
    if line != "" && line[|line| - 1] == '\r' then TrimCR(line[..|line| - 1]) else line
  }

  predicate Continues(line: string) { line != "" && line[|line| - 1] == '\\' }

  /** The logical lines of these physical ones, `pending` being the start of the first. */
  function Joined(raws: seq<string>, pending: string): seq<string>
    decreases |raws|
  {
    if raws == [] then (if pending == "" then [] else [pending]) else
    var line := TrimCR(raws[0]);
    if Continues(line) then Joined(raws[1..], pending + line[..|line| - 1])
    else [pending + line] + Joined(raws[1..], "")
  }

  function LogicalLines(src: string): seq<string> { Joined(Split(src), "") }

  // ── breaking lines ─────────────────────────────────────────────────────────

  function LastLine(src: string): string { Split(src)[|Split(src)| - 1] }

  function FirstLine(src: string): string { Split(src)[0] }

  predicate HasMoreThanCR(line: string) { exists i :: 0 <= i < |line| && line[i] != '\r' }

  predicate MayEndHere(line: string) { line == "" || (line[|line| - 1] != '\\' && line[|line| - 1] != '\r') }

  /** Where a backslash and a line end may be put between a and b: within a line, or behind one that does
      not itself end in a backslash or a carriage return. */
  predicate Breakable(a: string, b: string) {
    HasMoreThanCR(FirstLine(b)) || MayEndHere(LastLine(a))
  }

  /** The lines of a followed by those of b, the last of a and the first of b being one. */
  function Glued(a: seq<string>, b: seq<string>): seq<string>
    requires a != [] && b != []
  {
    a[..|a| - 1] + [a[|a| - 1] + b[0]] + b[1..]
  }

  lemma GluedBehindLine(a: seq<string>, b: seq<string>)
    requires a != [] && b != []
    ensures Glued([""] + a, b) == [""] + Glued(a, b)
  {
    assert ([""] + a)[..|a|] == [""] + a[..|a| - 1];
  }

  lemma GluedBehindChar(ch: char, a: seq<string>, b: seq<string>)
    requires a != [] && b != []
    ensures Glued([[ch] + a[0]] + a[1..], b) == [[ch] + Glued(a, b)[0]] + Glued(a, b)[1..]
  {
    var whole, joined := [[ch] + a[0]] + a[1..], Glued(a, b);
    if |a| == 1 {
      assert whole == [[ch] + a[0]];
      assert joined == [a[0] + b[0]] + b[1..];
      assert [ch] + a[0] + b[0] == [ch] + (a[0] + b[0]);
      assert joined[1..] == b[1..];
      assert Glued(whole, b) == [[ch] + a[0] + b[0]] + b[1..];
    } else {
      assert joined[0] == a[0];
      assert joined[1..] == a[1..|a| - 1] + [a[|a| - 1] + b[0]] + b[1..];
      assert whole[..|a| - 1] == [[ch] + a[0]] + a[1..|a| - 1];
      assert whole[|a| - 1] == a[|a| - 1];
    }
  }

  lemma {:induction false} SplitAppend(a: string, b: string)
    ensures Split(a + b) == Glued(Split(a), Split(b))
  {
    hide Glued;
    if a == "" {
      assert a + b == b;
      GluedToNothing(Split(b));
    } else {
      SplitAppend(a[1..], b);
      assert (a + b)[1..] == a[1..] + b;
      if a[0] == '\n' {
        GluedBehindLine(Split(a[1..]), Split(b));
      } else {
        GluedBehindChar(a[0], Split(a[1..]), Split(b));
      }
    }
  }

  lemma GluedToNothing(b: seq<string>)
    requires b != []
    ensures Glued([""], b) == b
  {
    assert [""][..0] == [] && "" + b[0] == b[0];
  }

  lemma SplitAtBreak(a: string, b: string)
    ensures Split(a + "\\\n" + b) == Split(a)[..|Split(a)| - 1] + ([LastLine(a) + "\\"] + Split(b))
  {
    var broken := "\\\n" + b;
    assert a + "\\\n" + b == a + broken;
    assert broken[1..][1..] == b && broken[1..][0] == '\n';
    assert Split(broken) == ["\\"] + Split(b) by {
      assert Split(broken[1..]) == [""] + Split(b);
      assert ['\\'] + "" == "\\";
    }
    SplitAppend(a, broken);
  }

  lemma {:induction false} TrimKeeps(x: string, y: string)
    ensures HasMoreThanCR(y) ==> TrimCR(x + y) == x + TrimCR(y) && TrimCR(y) != ""
    ensures !HasMoreThanCR(y) ==> TrimCR(x + y) == TrimCR(x) && TrimCR(y) == ""
  {
    if y == "" {
      assert x + y == x;
    } else {
      assert (x + y)[..|x + y| - 1] == x + y[..|y| - 1];
      TrimKeeps(x, y[..|y| - 1]);
      if y[|y| - 1] != '\r' {
        assert HasMoreThanCR(y);
      } else if HasMoreThanCR(y) {
        var i :| 0 <= i < |y| && y[i] != '\r';
        assert y[..|y| - 1][i] != '\r';
      } else {
        assert !HasMoreThanCR(y[..|y| - 1]);
      }
    }
  }

  lemma {:induction false} SameBehind(before: seq<string>, r: seq<string>, s: seq<string>, pending: string)
    requires forall p :: Joined(r, p) == Joined(s, p)
    ensures Joined(before + r, pending) == Joined(before + s, pending)
    decreases |before|
  {
    if before == [] {
      assert before + r == r && before + s == s;
    } else {
      assert (before + r)[1..] == before[1..] + r && (before + s)[1..] == before[1..] + s;
      var line := TrimCR(before[0]);
      SameBehind(before[1..], r, s, if Continues(line) then pending + line[..|line| - 1] else "");
    }
  }

  lemma BreakJoins(x: string, y: string, more: seq<string>, pending: string)
    requires HasMoreThanCR(y) || MayEndHere(x)
    ensures Joined([x + "\\"] + ([y] + more), pending) == Joined([x + y] + more, pending)
  {
    hide Joined, TrimCR;
    JoinsNext(x + "\\", [y] + more, pending);
    NothingToTrim(x + "\\");
    assert (x + "\\")[..|x|] == x;
    JoinsNext(y, more, pending + x);
    JoinsNext(x + y, more, pending);
    TrimKeeps(x, y);
    var line := TrimCR(y);
    if HasMoreThanCR(y) {
      assert pending + x + line == pending + (x + line);
      if Continues(line) {
        assert (x + line)[..|x + line| - 1] == x + line[..|line| - 1];
        assert pending + x + line[..|line| - 1] == pending + (x + line[..|line| - 1]);
      }
    } else {
      NothingToTrim(x);
      assert pending + x + "" == pending + x;
    }
  }

  lemma NothingToTrim(line: string)
    requires line == "" || line[|line| - 1] != '\r'
    ensures TrimCR(line) == line
  {
  }

  lemma JoinsNext(raw: string, more: seq<string>, pending: string)
    ensures var line := TrimCR(raw);
      Joined([raw] + more, pending) ==
        if Continues(line) then Joined(more, pending + line[..|line| - 1]) else [pending + line] + Joined(more, "")
  {
    assert ([raw] + more)[1..] == more;
  }

  // What the logical lines hold in all, whichever way they are joined.

  function Total(lines: seq<string>): nat {
    if lines == [] then 0 else |lines[0]| + Total(lines[1..])
  }

  function Kept(raw: string): nat { |TrimCR(raw)| - if Continues(TrimCR(raw)) then 1 else 0 }

  function AllKept(raws: seq<string>): nat {
    if raws == [] then 0 else Kept(raws[0]) + AllKept(raws[1..])
  }

  lemma {:induction false} TotalIsKept(raws: seq<string>, pending: string)
    ensures Total(Joined(raws, pending)) == |pending| + AllKept(raws)
    decreases |raws|
  {
    if raws == [] {
      assert Total([pending]) == |pending| + Total([]);
    } else {
      var line := TrimCR(raws[0]);
      if Continues(line) {
        TotalIsKept(raws[1..], pending + line[..|line| - 1]);
      } else {
        TotalIsKept(raws[1..], "");
        var lines := Joined(raws[1..], "");
        assert ([pending + line] + lines)[1..] == lines;
      }
    }
  }

  lemma {:induction false} AllKeptAppend(r: seq<string>, s: seq<string>)
    ensures AllKept(r + s) == AllKept(r) + AllKept(s)
  {
    if r == [] {
      assert r + s == s;
    } else {
      assert (r + s)[1..] == r[1..] + s;
      AllKeptAppend(r[1..], s);
    }
  }

  /** Breaking a line changes nothing exactly where lines may be broken. */
  lemma BreakChangesNothing(a: string, b: string)
    ensures LogicalLines(a + "\\\n" + b) == LogicalLines(a + b) <==> Breakable(a, b)
  {
    var before, x, y, more := Split(a)[..|Split(a)| - 1], LastLine(a), FirstLine(b), Split(b)[1..];
    var whole, broken := [x + y] + more, [x + "\\"] + ([y] + more);
    assert Split(b) == [y] + more;
    SplitAppend(a, b);
    SplitAtBreak(a, b);
    assert Split(a + b) == before + whole;
    assert Split(a + "\\\n" + b) == before + broken;
    if Breakable(a, b) {
      forall p ensures Joined(broken, p) == Joined(whole, p) {
        BreakJoins(x, y, more, p);
      }
      SameBehind(before, broken, whole, "");
    } else {
      TotalIsKept(before + whole, "");
      TotalIsKept(before + broken, "");
      AllKeptAppend(before, whole);
      AllKeptAppend(before, broken);
      BreakKeepsMore(x, y, more);
    }
  }

  /** Behind a backslash a break is a change: what was the one line "xy" becomes two. */
  lemma BreakBehindBackslash()
    ensures !Breakable("x\\", "\ny")
    ensures LogicalLines("x\\" + "\ny") == ["xy"]
    ensures LogicalLines("x\\" + "\\\n" + "\ny") == ["x\\", "y"]
  {
    hide Split, Joined;
    SplitLiterals();
    SplitAppend("x\\", "\ny");
    SplitAtBreak("x\\", "\ny");
    assert "x\\" + "" == "x\\" && "x\\" + "\\" == "x\\\\";
    assert Glued(["x\\"], ["", "y"]) == ["x\\", "y"];
    assert ["x\\"][..0] + (["x\\\\"] + ["", "y"]) == ["x\\\\", "", "y"];
    JoinedLiterals();
  }

  lemma JoinedLiterals()
    ensures Joined(["x\\", "y"], "") == ["xy"]
    ensures Joined(["x\\\\", "", "y"], "") == ["x\\", "y"]
  {
    hide Joined, TrimCR;
    NothingLeft();
    NothingToTrim("x\\");
    NothingToTrim("y");
    NothingToTrim("");
    NothingToTrim("x\\\\");
    JoinsNext("x\\", ["y"], "");
    JoinsNext("y", [], "x");
    JoinsNext("x\\\\", ["", "y"], "");
    JoinsNext("", ["y"], "x\\");
    JoinsNext("y", [], "");
    assert ["x\\"] + ["y"] == ["x\\", "y"] && ["x\\\\"] + ["", "y"] == ["x\\\\", "", "y"] && [""] + ["y"] == ["", "y"];
    assert ["y"] + [] == ["y"] && "x" + "y" == "xy" && "" + "y" == "y";
    assert "" + "x\\"[..1] == "x" && "" + "x\\\\"[..2] == "x\\" && "x\\" + "" == "x\\";
    assert Joined(["y"], "") == ["y"];
    assert Joined(["", "y"], "x\\") == ["x\\"] + ["y"];
  }

  lemma NothingLeft()
    ensures Joined([], "") == []
  {
  }

  lemma CharSplits(ch: char)
    requires ch != '\n'
    ensures Split([ch]) == [[ch]]
  {
    assert Split("") == [""] && [ch] + "" == [ch];
  }

  lemma SplitLiterals()
    ensures Split("x\\") == ["x\\"] && Split("\ny") == ["", "y"]
  {
    CharSplits('\\');
    CharSplits('y');
    assert "x\\"[1..] == ['\\'] && "\ny"[1..] == ['y'];
    assert ['x'] + ['\\'] == "x\\" && ['y'] == "y";
    assert [""] + ["y"] == ["", "y"];
  }

  lemma BreakKeepsMore(x: string, y: string, more: seq<string>)
    requires !HasMoreThanCR(y) && !MayEndHere(x)
    ensures AllKept([x + "\\"] + ([y] + more)) > AllKept([x + y] + more)
  {
    var broken := [x + "\\"] + ([y] + more);
    assert broken[1..] == [y] + more && ([y] + more)[1..] == more && ([x + y] + more)[1..] == more;
    TrimKeeps(x, y);
    assert TrimCR(x + "\\") == x + "\\";
    assert Kept(x + "\\") == |x|;
    assert Kept(x + y) < |x| by {
      if x[|x| - 1] == '\r' {
        assert TrimCR(x) == TrimCR(x[..|x| - 1]);
      }
    }
  }

  // ── many breaks ────────────────────────────────────────────────────────────

  function Whole(pieces: seq<string>): string {
    if pieces == [] then "" else pieces[0] + Whole(pieces[1..])
  }

  function Broken(pieces: seq<string>): string {
    if pieces == [] then "" else if |pieces| == 1 then pieces[0] else pieces[0] + "\\\n" + Broken(pieces[1..])
  }

  /** Between any two of the pieces that follow `before`, their lines may be broken. */
  ghost predicate BreakableAll(before: string, pieces: seq<string>)
    decreases |pieces|
  {
    |pieces| > 1 ==> (Breakable(before + pieces[0], Whole(pieces[1..])) && BreakableAll(before + pieces[0], pieces[1..]))
  }

  lemma {:induction false} StillMoreThanCR(pieces: seq<string>)
    requires HasMoreThanCR(FirstLine(Whole(pieces)))
    ensures HasMoreThanCR(FirstLine(Broken(pieces)))
  {
    if |pieces| == 1 {
      assert Whole(pieces) == pieces[0] + "" == pieces[0];
    } else {
      var p, rest := pieces[0], Broken(pieces[1..]);
      SplitAppend(p, Whole(pieces[1..]));
      SplitAtBreak(p, rest);
      var line := FirstLine(Broken(pieces));
      if |Split(p)| == 1 {
        assert line == LastLine(p) + "\\";
        assert line[|line| - 1] != '\r';
      } else {
        assert line == Split(p)[0] == FirstLine(Whole(pieces));
      }
    }
  }

  /** Any number of breaks, each where the text as it was may be broken, leave every logical line alone. */
  lemma {:induction false} BreaksChangeNothing(before: string, pieces: seq<string>)
    requires BreakableAll(before, pieces)
    ensures LogicalLines(before + Broken(pieces)) == LogicalLines(before + Whole(pieces))
    decreases |pieces|
  {
    hide LogicalLines, FirstLine, LastLine, HasMoreThanCR, MayEndHere;
    if |pieces| == 1 {
      assert Whole(pieces) == pieces[0] + "" == pieces[0];
    } else if |pieces| > 1 {
      var p, rest := pieces[0], pieces[1..];
      if HasMoreThanCR(FirstLine(Whole(rest))) {
        StillMoreThanCR(rest);
      }
      BreakChangesNothing(before + p, Broken(rest));
      BreaksChangeNothing(before + p, rest);
      assert before + Broken(pieces) == before + p + "\\\n" + Broken(rest);
      assert before + p + Whole(rest) == before + Whole(pieces);
    }
  }

  /** A text none of whose lines ends in a backslash or a carriage return may be broken anywhere, and in
      as many places as one likes. */
  lemma {:induction false} BreaksAnywhere(before: string, pieces: seq<string>)
    requires forall line :: line in Split(before + Whole(pieces)) ==> MayEndHere(line)
    ensures BreakableAll(before, pieces)
    decreases |pieces|
  {
    if |pieces| > 1 {
      var a, b := before + pieces[0], Whole(pieces[1..]);
      assert before + Whole(pieces) == a + b;
      SplitAppend(a, b);
      var line := LastLine(a) + FirstLine(b);
      assert Split(a + b)[|Split(a)| - 1] == line;
      assert MayEndHere(line);
      if FirstLine(b) == "" {
        assert line == LastLine(a);
      } else {
        assert line[|line| - 1] == FirstLine(b)[|FirstLine(b)| - 1];
      }
      BreaksAnywhere(a, pieces[1..]);
    }
  }

  /** apacheLogicalLines as the agent runs it. */
  method ApacheLogicalLines(src: string) returns (lines: seq<string>)
    ensures lines == LogicalLines(src)
  {
    lines := [];
    var pending, raws := "", Split(src);
    assert raws[0..] == raws;
    for i := 0 to |raws|
      invariant lines + Joined(raws[i..], pending) == LogicalLines(src)
    {
      ghost var rest, before := raws[i..], lines;
      assert rest[1..] == raws[i + 1..];
      var line := TrimCR(raws[i]);
      if Continues(line) {
        pending := pending + line[..|line| - 1];
        continue;
      }
      lines := lines + [pending + line];
      assert before + ([pending + line] + Joined(rest[1..], "")) == lines + Joined(rest[1..], "");
      pending := "";
    }
    assert raws[|raws|..] == [];
    if |pending| > 0 {
      lines := lines + [pending];
    }
  }

  // ── fields ─────────────────────────────────────────────────────────────────

  /** The fields of a line, read with `current` collected. */
  function FieldsFrom(line: string, current: string, started: bool, quote: Option<char>): seq<string>
    decreases |line|
  {
    if line == "" then (if started then [current] else []) else
    var ch := line[0];
    if quote.Some? then
      if ch == quote.value then FieldsFrom(line[1..], current, started, None)
      else FieldsFrom(line[1..], current + [ch], started, quote)
    else if ch == '"' || ch == '\'' then FieldsFrom(line[1..], current, true, Some(ch))
    else if ch == ' ' || ch == '\t' then
      if started then [current] + FieldsFrom(line[1..], "", false, None)
      else FieldsFrom(line[1..], current, false, None)
    else FieldsFrom(line[1..], current + [ch], true, None)
  }

  function Fields(line: string): seq<string> { FieldsFrom(line, "", false, None) }

  /** apacheFields as the agent runs it. */
  method ApacheFields(line: string) returns (fields: seq<string>)
    ensures fields == Fields(line)
  {
    fields := [];
    var current, quote, started := "", None, false;
    assert line[0..] == line;
    for i := 0 to |line|
      invariant fields + FieldsFrom(line[i..], current, started, quote) == Fields(line)
      invariant !started ==> current == "" && quote.None?
    {
      var ch := line[i];
      ghost var rest := line[i..];
      assert rest[1..] == line[i + 1..];
      if quote.Some? {
        if ch == quote.value {
          quote := None;
          continue;
        }
        current := current + [ch];
      } else if ch == '"' || ch == '\'' {
        quote, started := Some(ch), true;
      } else if ch == ' ' || ch == '\t' {
        if started {
          ghost var before := fields;
          fields := fields + [current];
          assert before + ([current] + FieldsFrom(rest[1..], "", false, None)) == fields + FieldsFrom(rest[1..], "", false, None);
          current, started := "", false;
        }
      } else {
        current, started := current + [ch], true;
      }
    }
    if started {
      fields := fields + [current];
    }
  }

  // ── writing fields ─────────────────────────────────────────────────────────

  /** A part of a field as it is written: bare, or in quotes of either kind. */
  datatype Piece = Piece(text: string, quote: Option<char>)

  /** A field as it is written: what stands before it, and its parts, with nothing between them. */
  datatype Field = Field(gap: string, pieces: seq<Piece>)

  /** There is no escaping: a quoted part has anything but its own quote in it, and a bare one has
      something, but neither blanks nor quotes. */
  predicate IsPiece(p: Piece) {
    match p.quote
    case None => p.text != "" && forall i :: 0 <= i < |p.text| ==> p.text[i] !in [' ', '\t', '"', '\'']
    case Some(q) => q in ['"', '\''] && q !in p.text
  }

  predicate IsGap(gap: string) { forall i :: 0 <= i < |gap| ==> gap[i] in [' ', '\t'] }

  predicate IsField(f: Field) {
    IsGap(f.gap) && f.pieces != [] && forall i :: 0 <= i < |f.pieces| ==> IsPiece(f.pieces[i])
  }

  /** Something stands between any two fields. */
  predicate AreFields(fields: seq<Field>) {
    && (forall i :: 0 <= i < |fields| ==> IsField(fields[i]))
    && (forall i :: 0 < i < |fields| ==> fields[i].gap != "")
  }

  function PieceText(p: Piece): string {
    match p.quote
    case None => p.text
    case Some(q) => [q] + (p.text + [q])
  }

  function PiecesText(ps: seq<Piece>): string {
    if ps == [] then "" else PieceText(ps[0]) + PiecesText(ps[1..])
  }

  function FieldsText(fields: seq<Field>): string {
    if fields == [] then "" else fields[0].gap + (PiecesText(fields[0].pieces) + FieldsText(fields[1..]))
  }

  function PiecesMeant(ps: seq<Piece>): string {
    if ps == [] then "" else ps[0].text + PiecesMeant(ps[1..])
  }

  /** The words that are written. */
  function FieldsMeant(fields: seq<Field>): seq<string> {
    if fields == [] then [] else [PiecesMeant(fields[0].pieces)] + FieldsMeant(fields[1..])
  }

  lemma {:induction false} ScanQuoted(text: string, q: char, rest: string, current: string)
    requires q !in text
    ensures FieldsFrom(text + ([q] + rest), current, true, Some(q)) == FieldsFrom(rest, current + text, true, None)
    decreases |text|
  {
    var src := text + ([q] + rest);
    if text == "" {
      assert src == [q] + rest && src[1..] == rest && current + text == current;
    } else {
      assert src[0] == text[0] && src[1..] == text[1..] + ([q] + rest);
      ScanQuoted(text[1..], q, rest, current + [text[0]]);
      assert current + [text[0]] + text[1..] == current + text;
    }
  }

  lemma {:induction false} ScanBare(text: string, rest: string, current: string, started: bool)
    requires forall i :: 0 <= i < |text| ==> text[i] !in [' ', '\t', '"', '\'']
    ensures FieldsFrom(text + rest, current, started, None) == FieldsFrom(rest, current + text, started || text != "", None)
    decreases |text|
  {
    if text == "" {
      assert text + rest == rest && current + text == current;
    } else {
      assert (text + rest)[0] == text[0] && (text + rest)[1..] == text[1..] + rest;
      ScanBare(text[1..], rest, current + [text[0]], true);
      assert current + [text[0]] + text[1..] == current + text;
    }
  }

  lemma ScanPiece(p: Piece, rest: string, current: string, started: bool)
    requires IsPiece(p)
    ensures FieldsFrom(PieceText(p) + rest, current, started, None) == FieldsFrom(rest, current + p.text, true, None)
  {
    match p.quote
    case None => ScanBare(p.text, rest, current, started);
    case Some(q) =>
      var src := PieceText(p) + rest;
      assert src[0] == q && src[1..] == p.text + ([q] + rest);
      ScanQuoted(p.text, q, rest, current);
  }

  lemma {:induction false} ScanPieces(ps: seq<Piece>, rest: string, current: string, started: bool)
    requires forall i :: 0 <= i < |ps| ==> IsPiece(ps[i])
    ensures FieldsFrom(PiecesText(ps) + rest, current, started, None) ==
      FieldsFrom(rest, current + PiecesMeant(ps), started || ps != [], None)
    decreases |ps|
  {
    hide FieldsFrom, IsPiece, PieceText;
    if ps == [] {
      assert PiecesText(ps) + rest == rest && current + "" == current;
    } else {
      var tail := PiecesText(ps[1..]) + rest;
      assert PiecesText(ps) + rest == PieceText(ps[0]) + tail;
      ScanPiece(ps[0], tail, current, started);
      ScanPieces(ps[1..], rest, current + ps[0].text, true);
      assert current + ps[0].text + PiecesMeant(ps[1..]) == current + PiecesMeant(ps);
    }
  }

  lemma {:induction false} ScanGap(gap: string, rest: string, current: string, started: bool)
    requires IsGap(gap) && (!started ==> current == "")
    ensures FieldsFrom(gap + rest, current, started, None) ==
      if gap != "" && started then [current] + FieldsFrom(rest, "", false, None) else FieldsFrom(rest, current, started, None)
    decreases |gap|
  {
    if gap == "" {
      assert gap + rest == rest;
    } else {
      assert (gap + rest)[0] == gap[0] && (gap + rest)[1..] == gap[1..] + rest;
      ScanGap(gap[1..], rest, "", false);
    }
  }

  /** Fields behind one that has been collected, if one has. */
  lemma {:induction false} ScanFields(fields: seq<Field>, trail: string, current: string, started: bool)
    requires (forall i :: 0 <= i < |fields| ==> IsField(fields[i])) && IsGap(trail)
    requires !started ==> current == ""
    requires forall i :: 0 <= i < |fields| && (started || i > 0) ==> fields[i].gap != ""
    ensures FieldsFrom(FieldsText(fields) + trail, current, started, None) ==
      (if started then [current] else []) + FieldsMeant(fields)
    decreases |fields|
  {
    hide PiecesText, PiecesMeant, IsPiece;
    var done := if started then [current] else [];
    if fields == [] {
      assert FieldsText(fields) + trail == trail + "";
      ScanGap(trail, "", current, started);
      assert done + [] == done;
    } else {
      var f, more := fields[0], FieldsText(fields[1..]) + trail;
      assert FieldsText(fields) + trail == f.gap + (PiecesText(f.pieces) + more);
      ScanGap(f.gap, PiecesText(f.pieces) + more, current, started);
      ScanPieces(f.pieces, more, "", false);
      assert "" + PiecesMeant(f.pieces) == PiecesMeant(f.pieces);
      ScanFields(fields[1..], trail, PiecesMeant(f.pieces), true);
      assert done + ([PiecesMeant(f.pieces)] + FieldsMeant(fields[1..])) == done + FieldsMeant(fields);
    }
  }

  /** However a line's fields are written, those are its fields: bare, in quotes of either kind or partly
      each, with blanks, the other quote and comment signs in them, or empty. */
  lemma FieldsRoundTrip(fields: seq<Field>, trail: string)
    requires AreFields(fields) && IsGap(trail)
    ensures Fields(FieldsText(fields) + trail) == FieldsMeant(fields)
  {
    ScanFields(fields, trail, "", false);
  }

  // Every word can be written.

  /** A character in quotes that it is not itself. */
  function QuotedPieces(word: string): seq<Piece> {
    if word == "" then [] else
    [Piece([word[0]], Some(if word[0] == '"' then '\'' else '"'))] + QuotedPieces(word[1..])
  }

  function QuotedField(gap: string, word: string): Field {
    Field(gap, [Piece("", Some('"'))] + QuotedPieces(word))
  }

  lemma {:induction false} QuotedPiecesMean(word: string)
    ensures PiecesMeant(QuotedPieces(word)) == word
    ensures forall i :: 0 <= i < |QuotedPieces(word)| ==> IsPiece(QuotedPieces(word)[i])
    ensures QuotedPieces(word) != [] ==>
      var text := PiecesText(QuotedPieces(word)); text != "" && text[|text| - 1] in ['"', '\'']
    ensures '\n' !in word ==> '\n' !in PiecesText(QuotedPieces(word))
  {
    if word != "" {
      QuotedPiecesMean(word[1..]);
      assert [word[0]] + word[1..] == word;
      var rest := QuotedPieces(word[1..]);
      var text := PieceText(QuotedPieces(word)[0]);
      assert PiecesText(QuotedPieces(word)) == text + PiecesText(rest);
      if rest == [] {
        assert text + "" == text;
      }
    }
  }

  /** Any word is written in quotes, one character or another at a time. */
  lemma QuotedFieldMeans(gap: string, word: string)
    requires IsGap(gap)
    ensures IsField(QuotedField(gap, word)) && PiecesMeant(QuotedField(gap, word).pieces) == word
    ensures var text := PiecesText(QuotedField(gap, word).pieces);
      text != "" && text[0] == '"' && text[|text| - 1] in ['"', '\''] && ('\n' !in word ==> '\n' !in text)
  {
    QuotedPiecesMean(word);
    var f, first, rest := QuotedField(gap, word), Piece("", Some('"')), QuotedPieces(word);
    assert f.pieces[1..] == rest;
    assert PieceText(first) == "\"\"";
    assert PiecesText(f.pieces) == "\"\"" + PiecesText(rest);
    assert "" + PiecesMeant(rest) == PiecesMeant(rest);
  }
}
