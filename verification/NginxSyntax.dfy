/** nginx configuration as text and as tokens, and a printer whose output the tokeniser reads back. */
module NginxSyntax {
  import opened Basics

  datatype Token = Word(text: string) | Punct(ch: char)

  /** The characters a backslash is meaningful before, inside quotes. */
  predicate NeedsEscaping(ch: char) { ch == '"' || ch == '\'' || ch == '\\' || ch == '$' }

  predicate IsPunct(ch: char) { ch == '{' || ch == '}' || ch == ';' }

  predicate IsSpace(ch: char) { ch == ' ' || ch == '\t' || ch == '\n' || ch == '\r' }

  function Flushed(current: string): seq<Token> { if current == "" then [] else [Word(current)] }

  /** What is left after a comment: everything behind the end of its line. */
  function AfterLine(src: string): (rest: string)
    ensures |rest| <= |src|
    ensures src != "" ==> |rest| < |src|
  {
    if src == "" then "" else if src[0] == '\n' then src[1..] else AfterLine(src[1..])
  }

  /** The tokens of src, read with `current` already collected and `quote` open. */
  function Lex(src: string, current: string, quote: Option<char>): seq<Token>
    decreases |src|
  {
    if src == "" then Flushed(current) else
    var ch := src[0];
    if quote.Some? then
      if ch == '\\' && |src| > 1 && NeedsEscaping(src[1]) then Lex(src[2..], current + [src[1]], quote)
      else if ch == quote.value then Lex(src[1..], current, None)
      else Lex(src[1..], current + [ch], quote)
    else if ch == '"' || ch == '\'' then Lex(src[1..], current, Some(ch))
    else if ch == '#' then Flushed(current) + Lex(AfterLine(src), "", None)
    else if IsPunct(ch) then Flushed(current) + [Punct(ch)] + Lex(src[1..], "", None)
    else if IsSpace(ch) then Flushed(current) + Lex(src[1..], "", None)
    else Lex(src[1..], current + [ch], None)
  }

  function Tokens(src: string): seq<Token> { Lex(src, "", None) }

  // ── writing ────────────────────────────────────────────────────────────────

  /** A statement: words and a semicolon, or words and a block. */
  datatype Statement =
    | Simple(words: seq<string>)
    | Block(words: seq<string>, children: seq<Statement>)

  /** What may stand between tokens. */
  datatype Filler = Blank(ch: char) | Comment(text: string)

  /** A character of a word as it is written: with a backslash before it, or by itself. */
  datatype Letter = Letter(ch: char, escaped: bool)

  /** A word as it is written: bare, or in quotes of either kind, and what follows it. */
  datatype Spelled = Spelled(letters: seq<Letter>, quote: Option<char>, after: seq<Filler>)

  /** A statement as it is written; `after` follows the semicolon or the closing brace, `open` the opening one. */
  datatype Source =
    | SimpleSource(words: seq<Spelled>, after: seq<Filler>)
    | BlockSource(words: seq<Spelled>, open: seq<Filler>, children: seq<Source>, after: seq<Filler>)

  function Chars(letters: seq<Letter>): string {
    if letters == [] then "" else [letters[0].ch] + Chars(letters[1..])
  }

  function Texts(words: seq<Spelled>): seq<string> {
    if words == [] then [] else [Chars(words[0].letters)] + Texts(words[1..])
  }

  /** What is written, apart from how. */
  function Meant(s: Source): Statement {
    match s
    case SimpleSource(words, _) => Simple(Texts(words))
    case BlockSource(words, _, children, _) => Block(Texts(words), AllMeant(children))
  }

  function AllMeant(ss: seq<Source>): seq<Statement> {
    if ss == [] then [] else [Meant(ss[0])] + AllMeant(ss[1..])
  }

  function FillersText(fs: seq<Filler>): string {
    if fs == [] then "" else
    var more := FillersText(fs[1..]);
    match fs[0]
    case Blank(ch) => [ch] + more
    case Comment(text) => ['#'] + (text + ("\n" + more))
  }

  function LettersText(letters: seq<Letter>): string {
    if letters == [] then "" else
    (if letters[0].escaped then ['\\', letters[0].ch] else [letters[0].ch]) + LettersText(letters[1..])
  }

  function SpelledText(w: Spelled): string {
    if w.quote.Some? then [w.quote.value] + (LettersText(w.letters) + [w.quote.value]) else LettersText(w.letters)
  }

  function WordsText(words: seq<Spelled>): string {
    if words == [] then "" else SpelledText(words[0]) + (FillersText(words[0].after) + WordsText(words[1..]))
  }

  function Text(s: Source): string {
    match s
    case SimpleSource(words, after) => WordsText(words) + ([';'] + FillersText(after))
    case BlockSource(words, open, children, after) =>
      WordsText(words) + (['{'] + (FillersText(open) + (AllText(children) + (['}'] + FillersText(after)))))
  }

  function AllText(ss: seq<Source>): string {
    if ss == [] then "" else Text(ss[0]) + AllText(ss[1..])
  }

  // ── what may be written ────────────────────────────────────────────────────

  predicate AreFillers(fs: seq<Filler>) {
    forall i :: 0 <= i < |fs| ==>
      match fs[i]
      case Blank(ch) => ch in [' ', '\t', '\n', '\r']
      case Comment(text) => '\n' !in text
  }

  /** Only these four take a backslash away. */
  predicate Special(ch: char) { ch in ['"', '\'', '\\', '$'] }

  /** Inside quotes q: only special characters have a backslash before them, the quote itself always; and a
      backslash that stands for itself has none of the four right behind it. */
  predicate InQuotes(letters: seq<Letter>, q: char) {
    forall i :: 0 <= i < |letters| ==> Fits(letters, q, i)
  }

  predicate Fits(letters: seq<Letter>, q: char, i: nat)
    requires i < |letters|
  {
    && (letters[i].escaped ==> Special(letters[i].ch))
    && (!letters[i].escaped ==> letters[i].ch != q)
    && (!letters[i].escaped && letters[i].ch == '\\' ==>
          i + 1 < |letters| && !letters[i + 1].escaped && !Special(letters[i + 1].ch))
  }

  /** Bare, a word has at least one character and none that means something by itself. */
  predicate IsBare(letters: seq<Letter>) {
    && letters != []
    && forall i :: 0 <= i < |letters| ==>
         !letters[i].escaped && letters[i].ch !in [' ', '\t', '\n', '\r', '"', '\'', '#', '{', '}', ';']
  }

  predicate IsSpelled(w: Spelled) {
    && AreFillers(w.after)
    && match w.quote
       case None => IsBare(w.letters)
       case Some(q) => q in ['"', '\''] && InQuotes(w.letters, q)
  }

  /** Something stands between any two words. */
  predicate AreSpelled(words: seq<Spelled>) {
    && (forall i :: 0 <= i < |words| ==> IsSpelled(words[i]))
    && (forall i :: 0 <= i < |words| - 1 ==> words[i].after != [])
  }

  predicate WellWritten(s: Source) {
    && AreSpelled(s.words) && AreFillers(s.after)
    && (s.BlockSource? ==> AreFillers(s.open) && AllWellWritten(s.children))
  }

  predicate AllWellWritten(ss: seq<Source>) { ss == [] || (WellWritten(ss[0]) && AllWellWritten(ss[1..])) }

  // Everything can be written.

  function Quoted(word: string): seq<Letter> {
    seq(|word|, i requires 0 <= i < |word| => Letter(word[i], Special(word[i])))
  }

  function QuotedWords(words: seq<string>): seq<Spelled> {
    if words == [] then [] else [Spelled(Quoted(words[0]), Some('"'), [Blank(' ')])] + QuotedWords(words[1..])
  }

  function Printed(s: Statement): Source {
    match s
    case Simple(words) => SimpleSource(QuotedWords(words), [])
    case Block(words, children) => BlockSource(QuotedWords(words), [], AllPrinted(children), [])
  }

  function AllPrinted(ss: seq<Statement>): seq<Source> {
    if ss == [] then [] else [Printed(ss[0])] + AllPrinted(ss[1..])
  }

  lemma {:induction false} QuotedIsSpelled(word: string)
    ensures InQuotes(Quoted(word), '"') && Chars(Quoted(word)) == word
  {
    if word != "" {
      QuotedIsSpelled(word[1..]);
      assert Quoted(word)[1..] == Quoted(word[1..]);
      assert [word[0]] + word[1..] == word;
    }
  }

  lemma {:induction false} QuotedWordsAreSpelled(words: seq<string>)
    ensures AreSpelled(QuotedWords(words)) && Texts(QuotedWords(words)) == words
    ensures forall i :: 0 <= i < |QuotedWords(words)| ==> QuotedWords(words)[i].after != []
  {
    if words != [] {
      QuotedIsSpelled(words[0]);
      QuotedWordsAreSpelled(words[1..]);
    }
  }

  lemma {:induction false} PrintedIsWritten(s: Statement)
    ensures WellWritten(Printed(s)) && Meant(Printed(s)) == s
    decreases s
  {
    QuotedWordsAreSpelled(s.words);
    if s.Block? {
      AllPrintedIsWritten(s.children);
    }
  }

  /** Any tree of statements can be written, whatever characters are in its words. */
  lemma {:induction false} AllPrintedIsWritten(ss: seq<Statement>)
    ensures AllWellWritten(AllPrinted(ss)) && AllMeant(AllPrinted(ss)) == ss
    decreases ss
  {
    if ss != [] {
      PrintedIsWritten(ss[0]);
      AllPrintedIsWritten(ss[1..]);
    }
  }

  // ── the tokens of what is written ──────────────────────────────────────────

  /** An empty word leaves no token. */
  function WordTokens(words: seq<string>): seq<Token> {
    if words == [] then [] else (if words[0] == "" then [] else [Word(words[0])]) + WordTokens(words[1..])
  }

  function StatementTokens(s: Statement): seq<Token> {
    match s
    case Simple(words) => WordTokens(words) + [Punct(';')]
    case Block(words, children) => WordTokens(words) + [Punct('{')] + AllTokens(children) + [Punct('}')]
  }

  function AllTokens(ss: seq<Statement>): seq<Token> {
    if ss == [] then [] else StatementTokens(ss[0]) + AllTokens(ss[1..])
  }

  lemma TailInQuotes(letters: seq<Letter>, q: char)
    requires InQuotes(letters, q) && letters != []
    ensures InQuotes(letters[1..], q)
  {
    var tail := letters[1..];
    forall i | 0 <= i < |tail| ensures Fits(tail, q, i) {
      assert Fits(letters, q, i + 1);
    }
  }

  /** Inside quotes every character comes back as it was meant. */
  lemma {:induction false} LexLetters(letters: seq<Letter>, q: char, rest: string, current: string)
    requires InQuotes(letters, q) && q in ['"', '\'']
    ensures Lex(LettersText(letters) + ([q] + rest), current, Some(q)) == Lex(rest, current + Chars(letters), None)
    decreases |letters|
  {
    var src := LettersText(letters) + ([q] + rest);
    if letters == [] {
      assert src == [q] + rest && src[1..] == rest && current + "" == current;
    } else {
      var l, tail := letters[0], LettersText(letters[1..]) + ([q] + rest);
      TailInQuotes(letters, q);
      assert Fits(letters, q, 0);
      LexLetters(letters[1..], q, rest, current + [l.ch]);
      assert current + [l.ch] + Chars(letters[1..]) == current + Chars(letters);
      if l.escaped {
        assert src[0] == '\\' && src[1] == l.ch && src[2..] == tail;
      } else {
        assert src[0] == l.ch && src[1..] == tail;
        if l.ch == '\\' {
          assert src[1] == letters[1].ch;
        }
      }
    }
  }

  lemma {:induction false} LexBare(letters: seq<Letter>, rest: string, current: string)
    requires forall i :: 0 <= i < |letters| ==>
      !letters[i].escaped && letters[i].ch !in [' ', '\t', '\n', '\r', '"', '\'', '#', '{', '}', ';']
    ensures Lex(LettersText(letters) + rest, current, None) == Lex(rest, current + Chars(letters), None)
    decreases |letters|
  {
    if letters == [] {
      assert LettersText(letters) + rest == rest && current + "" == current;
    } else {
      var src := LettersText(letters) + rest;
      assert src[0] == letters[0].ch && src[1..] == LettersText(letters[1..]) + rest;
      LexBare(letters[1..], rest, current + [letters[0].ch]);
      assert current + [letters[0].ch] + Chars(letters[1..]) == current + Chars(letters);
    }
  }

  lemma LexSpelled(w: Spelled, rest: string)
    requires IsSpelled(w)
    ensures Lex(SpelledText(w) + rest, "", None) == Lex(rest, Chars(w.letters), None)
  {
    assert "" + Chars(w.letters) == Chars(w.letters);
    match w.quote
    case None => LexBare(w.letters, rest, "");
    case Some(q) =>
      var src := SpelledText(w) + rest;
      assert src[0] == q && src[1..] == LettersText(w.letters) + ([q] + rest);
      LexLetters(w.letters, q, rest, "");
  }

  lemma {:induction false} CommentEnds(text: string, rest: string)
    requires '\n' !in text
    ensures AfterLine(text + ("\n" + rest)) == rest
  {
    var src := text + ("\n" + rest);
    if text == "" {
      assert src == "\n" + rest && src[1..] == rest;
    } else {
      assert src[0] == text[0] && src[1..] == text[1..] + ("\n" + rest);
      CommentEnds(text[1..], rest);
    }
  }

  /** Any filler ends the word before it, and is otherwise nothing. */
  lemma {:induction false} LexFillers(fs: seq<Filler>, rest: string, current: string)
    requires AreFillers(fs)
    ensures Lex(FillersText(fs) + rest, current, None) ==
      if fs == [] then Lex(rest, current, None) else Flushed(current) + Lex(rest, "", None)
    decreases |fs|
  {
    hide Lex, AfterLine, AreFillers, Flushed, FillersText;
    FillersStep(fs, rest);
    if fs != [] {
      var tail := FillersText(fs[1..]) + rest;
      TailFillers(fs);
      LexFillers(fs[1..], rest, "");
      NothingFlushed(Lex(rest, "", None));
      match fs[0]
      case Blank(ch) => LexBlank(ch, tail, current);
      case Comment(text) => LexComment(text, tail, current);
    }
  }

  lemma FillersStep(fs: seq<Filler>, rest: string)
    ensures fs == [] ==> FillersText(fs) + rest == rest
    ensures fs != [] && fs[0].Blank? ==> FillersText(fs) + rest == [fs[0].ch] + (FillersText(fs[1..]) + rest)
    ensures fs != [] && fs[0].Comment? ==>
      FillersText(fs) + rest == ['#'] + (fs[0].text + ("\n" + (FillersText(fs[1..]) + rest)))
  {
    if fs != [] {
      var more := FillersText(fs[1..]);
      match fs[0]
      case Blank(ch) => assert ([ch] + more) + rest == [ch] + (more + rest);
      case Comment(text) => CommentRegrouped(text, more, rest);
    }
  }

  lemma CommentRegrouped(text: string, more: string, rest: string)
    ensures (['#'] + (text + ("\n" + more))) + rest == ['#'] + (text + ("\n" + (more + rest)))
  {
    assert ("\n" + more) + rest == "\n" + (more + rest);
    assert (text + ("\n" + more)) + rest == text + ("\n" + (more + rest));
  }

  lemma TailFillers(fs: seq<Filler>)
    requires AreFillers(fs) && fs != []
    ensures AreFillers(fs[1..])
    ensures fs[0].Blank? ==> IsSpace(fs[0].ch)
    ensures fs[0].Comment? ==> '\n' !in fs[0].text
  {
  }

  lemma LexBlank(ch: char, rest: string, current: string)
    requires IsSpace(ch)
    ensures Lex([ch] + rest, current, None) == Flushed(current) + Lex(rest, "", None)
  {
    assert ([ch] + rest)[1..] == rest;
  }

  lemma LexComment(text: string, rest: string, current: string)
    requires '\n' !in text
    ensures Lex(['#'] + (text + ("\n" + rest)), current, None) == Flushed(current) + Lex(rest, "", None)
  {
    var src := ['#'] + (text + ("\n" + rest));
    assert src[1..] == text + ("\n" + rest);
    CommentEnds(text, rest);
  }

  lemma LexPunct(ch: char, rest: string, current: string)
    requires IsPunct(ch)
    ensures Lex([ch] + rest, current, None) == Flushed(current) + ([Punct(ch)] + Lex(rest, "", None))
  {
    assert ([ch] + rest)[1..] == rest;
    assert Flushed(current) + [Punct(ch)] + Lex(rest, "", None) == Flushed(current) + ([Punct(ch)] + Lex(rest, "", None));
  }

  /** Words up to the punctuation that ends their statement. */
  lemma {:induction false} LexWords(words: seq<Spelled>, ch: char, rest: string)
    requires AreSpelled(words) && IsPunct(ch)
    ensures Lex(WordsText(words) + ([ch] + rest), "", None) ==
      WordTokens(Texts(words)) + ([Punct(ch)] + Lex(rest, "", None))
    decreases |words|
  {
    hide Lex, FillersText, SpelledText, Chars, AreFillers, IsSpelled, Flushed;
    var end := [Punct(ch)] + Lex(rest, "", None);
    NothingFlushed(end);
    LexPunct(ch, rest, "");
    if words == [] {
      assert WordsText(words) + ([ch] + rest) == [ch] + rest;
      assert WordTokens(Texts(words)) + end == end;
    } else {
      var w, more := words[0], words[1..];
      var text, tail := Chars(w.letters), WordsText(more) + ([ch] + rest);
      assert WordsText(words) + ([ch] + rest) == SpelledText(w) + (FillersText(w.after) + tail);
      LexWords(more, ch, rest);
      if w.after == [] {
        assert more == [] && tail == [ch] + rest;
      }
      LexOneWord(w, ch, rest, tail);
      OneMoreWord(text, Texts(more), end);
    }
  }

  /** A word and its fillers; without those the punctuation is next. */
  lemma LexOneWord(w: Spelled, ch: char, rest: string, tail: string)
    requires IsSpelled(w) && IsPunct(ch) && (w.after == [] ==> tail == [ch] + rest)
    ensures Lex(SpelledText(w) + (FillersText(w.after) + tail), "", None) == Flushed(Chars(w.letters)) + Lex(tail, "", None)
  {
    hide Lex, FillersText, SpelledText, Chars, AreFillers, Flushed;
    LexSpelled(w, FillersText(w.after) + tail);
    LexFillers(w.after, tail, Chars(w.letters));
    if w.after == [] {
      LexPunct(ch, rest, Chars(w.letters));
      LexPunct(ch, rest, "");
      NothingFlushed([Punct(ch)] + Lex(rest, "", None));
    }
  }

  lemma OneMoreWord(text: string, more: seq<string>, end: seq<Token>)
    ensures Flushed(text) + (WordTokens(more) + end) == WordTokens([text] + more) + end
  {
    assert ([text] + more)[1..] == more;
  }

  lemma {:induction false} LexStatement(s: Source, rest: string)
    requires WellWritten(s)
    ensures Lex(Text(s) + rest, "", None) == StatementTokens(Meant(s)) + Lex(rest, "", None)
    decreases s
  {
    hide Lex, FillersText, WordsText, AreSpelled, AreFillers, Flushed, WordTokens, Texts, AllText, AllTokens, AllMeant, AllWellWritten;
    var after := FillersText(s.after) + rest;
    LexFillers(s.after, rest, "");
    NothingFlushed(Lex(rest, "", None));
    match s
    case SimpleSource(words, _) =>
      assert WordsText(words) + ([';'] + FillersText(s.after)) + rest == WordsText(words) + ([';'] + after);
      LexWords(words, ';', after);
    case BlockSource(words, open, children, _) =>
      var closed := ['}'] + after;
      var body := FillersText(open) + (AllText(children) + closed);
      Regrouped(WordsText(words), ['{'], FillersText(open), AllText(children), ['}'], FillersText(s.after), rest);
      LexWords(words, '{', body);
      LexFillers(open, AllText(children) + closed, "");
      NothingFlushed(Lex(AllText(children) + closed, "", None));
      LexAll(children, closed);
      LexPunct('}', after, "");
      NothingFlushed([Punct('}')] + Lex(after, "", None));
      RegroupedTokens(WordTokens(Texts(words)), [Punct('{')], AllTokens(AllMeant(children)), [Punct('}')], Lex(rest, "", None));
  }

  lemma Regrouped(a: string, b: string, c: string, d: string, e: string, f: string, rest: string)
    ensures (a + (b + (c + (d + (e + f))))) + rest == a + (b + (c + (d + (e + (f + rest)))))
  {
    assert (e + f) + rest == e + (f + rest);
    assert (d + (e + f)) + rest == d + (e + (f + rest));
    assert (c + (d + (e + f))) + rest == c + (d + (e + (f + rest)));
    assert (b + (c + (d + (e + f)))) + rest == b + (c + (d + (e + (f + rest))));
  }

  lemma RegroupedTokens(a: seq<Token>, b: seq<Token>, c: seq<Token>, d: seq<Token>, end: seq<Token>)
    ensures a + (b + (c + (d + end))) == a + b + c + d + end
  {
  }

  lemma NothingFlushed(tokens: seq<Token>)
    ensures Flushed("") + tokens == tokens
  {
  }

  lemma {:induction false} LexAll(ss: seq<Source>, rest: string)
    requires AllWellWritten(ss)
    ensures Lex(AllText(ss) + rest, "", None) == AllTokens(AllMeant(ss)) + Lex(rest, "", None)
    decreases ss
  {
    hide Lex, Text, StatementTokens, WellWritten, Meant;
    if ss == [] {
      assert AllText(ss) + rest == rest;
      assert AllTokens([]) + Lex(rest, "", None) == Lex(rest, "", None);
    } else {
      var tail := AllText(ss[1..]) + rest;
      assert AllText(ss) + rest == Text(ss[0]) + tail;
      LexStatement(ss[0], tail);
      LexAll(ss[1..], rest);
    }
  }

  /** A configuration as it stands in its file: fillers first, and then its statements. */
  function FileText(first: seq<Filler>, ss: seq<Source>): string { FillersText(first) + AllText(ss) }

  /** However a configuration is written, its tokens are those of what is meant: words bare or in quotes of
      either kind, with or without needless backslashes, and blanks, line ends and comments between. */
  lemma TokensRoundTrip(first: seq<Filler>, ss: seq<Source>)
    requires AreFillers(first) && AllWellWritten(ss)
    ensures Tokens(FileText(first, ss)) == AllTokens(AllMeant(ss))
  {
    LexFillers(first, AllText(ss), "");
    NothingFlushed(Lex(AllText(ss), "", None));
    LexAll(ss, "");
    assert AllText(ss) + "" == AllText(ss);
    assert AllTokens(AllMeant(ss)) + [] == AllTokens(AllMeant(ss));
  }

  // ── the tokeniser as the agent runs it ─────────────────────────────────────

  method NginxTokenize(src: string) returns (tokens: seq<Token>)
    ensures tokens == Tokens(src)
  {
    tokens := [];
    var current, quote := "", None;
    var i := 0;
    assert src[0..] == src;
    while i < |src|
      invariant i <= |src|
      invariant tokens + Lex(src[i..], current, quote) == Tokens(src)
    {
      var ch := src[i];
      ghost var rest := src[i..];
      assert rest[1..] == src[i + 1..];
      if quote.Some? {
        if ch == '\\' && i + 1 < |src| && NeedsEscaping(src[i + 1]) {
          assert rest[2..] == src[i + 2..];
          current := current + [src[i + 1]];
          i := i + 2;
        } else if ch == quote.value {
          quote := None;
          i := i + 1;
        } else {
          current := current + [ch];
          i := i + 1;
        }
      } else if ch == '"' || ch == '\'' {
        quote := Some(ch);
        i := i + 1;
      } else if ch == '#' {
        ghost var before := tokens;
        tokens := tokens + Flushed(current);
        assert before + (Flushed(current) + Lex(AfterLine(rest), "", None)) == tokens + Lex(AfterLine(rest), "", None);
        current := "";
        i := SkipComment(src, i);
      } else if IsPunct(ch) {
        ghost var before, tail := tokens, Lex(src[i + 1..], "", None);
        tokens := tokens + Flushed(current) + [Punct(ch)];
        assert before + (Flushed(current) + [Punct(ch)] + tail) == tokens + tail;
        current := "";
        i := i + 1;
      } else if IsSpace(ch) {
        ghost var before, tail := tokens, Lex(src[i + 1..], "", None);
        tokens := tokens + Flushed(current);
        assert before + (Flushed(current) + tail) == tokens + tail;
        current := "";
        i := i + 1;
      } else {
        current := current + [ch];
        i := i + 1;
      }
    }
    assert src[i..] == "";
    tokens := tokens + Flushed(current);
  }

  /** Runs to the end of the line, and over it. */
  method SkipComment(src: string, start: nat) returns (i: nat)
    requires start < |src|
    ensures start < i <= |src| && src[i..] == AfterLine(src[start..])
  {
    i := start;
    while i < |src| && src[i] != '\n'
      invariant start <= i <= |src|
      invariant AfterLine(src[i..]) == AfterLine(src[start..])
    {
      assert src[i..][1..] == src[i + 1..];
      i := i + 1;
    }
    if i < |src| {
      assert src[i..][1..] == src[i + 1..];
      i := i + 1;
    } else {
      assert src[i..] == "";
    }
  }
}
