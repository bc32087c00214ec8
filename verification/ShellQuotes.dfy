/** Lines with quoted strings, and the character classes of the tokenizer. */
module ShellQuotes {
  import opened ShellTokens
  import opened ShellWords

  /** The classes, character by character. */
  lemma CharClasses(c: char)
    ensures IsSpace(c) <==> c in [' ', '\t', '\n', '\U{000B}', '\U{000C}', '\r']
    ensures IsOp(c) <==> c in "|<>"
    ensures IsQuote(c) <==> c in ['"', '\'']
  {
  }

  // ---------------------------------------------------------------------------------------
  // Reading on.

  /** Where the tokenizer stands after `text`, read from `st`. */
  function ReadsOn(st: ParseState, text: string): ParseState
    decreases |text|
  {
    if text == "" then st else ReadsOn(Consume(st, text[0]), text[1..])
  }

  lemma {:induction false} ReadsOnJoin(st: ParseState, a: string, b: string)
    ensures ReadsOn(st, a + b) == ReadsOn(ReadsOn(st, a), b)
    decreases |a|
  {
    hide Consume;
    if a == "" {
      assert a + b == b;
    } else {
      assert (a + b)[0] == a[0] && (a + b)[1..] == a[1..] + b;
      ReadsOnJoin(Consume(st, a[0]), a[1..], b);
    }
  }

  lemma ReadsOnOne(st: ParseState, c: char)
    ensures ReadsOn(st, [c]) == Consume(st, c)
  {
    hide Consume;
    assert [c][1..] == "";
  }

  lemma {:induction false} ReadsIsReadsOn(text: string)
    ensures Reads(text) == ReadsOn(START, text)
    decreases |text|
  {
    hide Consume;
    if text != "" {
      var p, c := DropLast(text), Last(text);
      assert text == p + [c];
      ReadsIsReadsOn(p);
      ReadsOnJoin(START, p, [c]);
      ReadsOnOne(ReadsOn(START, p), c);
    }
  }

  // ---------------------------------------------------------------------------------------
  // Inside quotes.

  /** The flags inside a string quoted by `quote`. */
  function Within(quote: char): Quotes {
    Quotes(quote == '"', quote == '\'')
  }

  const OUTSIDE := Quotes(false, false)

  /** Text that can stand between two of these quotes: anything else, the other quote included. */
  predicate Quotable(quote: char, text: string) {
    forall k :: 0 <= k < |text| ==> text[k] != quote && text[k] != '\0'
  }

  lemma TakesIn(st: ParseState, quote: char, c: char)
    requires IsQuote(quote) && st.q == Within(quote) && st.prev != '\0' && c != quote
    ensures Consume(st, c) == st.(word := st.word + [c], prev := c)
  {
  }

  /** Between quotes every character, space, operator or other quote, goes into the word. */
  lemma {:induction false} InsideQuotes(st: ParseState, quote: char, text: string)
    requires IsQuote(quote) && Quotable(quote, text) && st.q == Within(quote) && st.prev != '\0'
    ensures ReadsOn(st, text) == st.(word := st.word + text, prev := if text == "" then st.prev else Last(text))
    decreases |text|
  {
    hide Consume, Within, IsQuote;
    if text != "" {
      TakesIn(st, quote, text[0]);
      InsideQuotes(Consume(st, text[0]), quote, text[1..]);
      assert st.word + [text[0]] + text[1..] == st.word + text;
    }
  }

  lemma Opens(st: ParseState, quote: char)
    requires IsQuote(quote) && st.q == OUTSIDE && st.prev != '\0'
    ensures Consume(st, quote) ==
              if IsSpace(st.prev) then ParseState(st.words, st.word, Within(quote), quote)
              else ParseState(st.words + [st.word], "", Within(quote), quote)
  {
  }

  lemma Closes(st: ParseState, quote: char)
    requires IsQuote(quote) && st.q == Within(quote) && st.prev != '\0'
    ensures Consume(st, quote) == ParseState(st.words + [st.word], "", OUTSIDE, quote)
  {
  }

  /** A quoted string is one word, whatever is in it.  A word that it follows without space ends. */
  lemma QuotedString(st: ParseState, quote: char, text: string)
    requires IsQuote(quote) && Quotable(quote, text) && st.q == OUTSIDE && st.prev != '\0'
    requires IsSpace(st.prev) ==> st.word == ""
    ensures ReadsOn(st, [quote] + text + [quote]) ==
              ParseState((if IsSpace(st.prev) then st.words else st.words + [st.word]) + [text], "", OUTSIDE, quote)
  {
    hide Consume, Within, IsSpace, IsQuote, ReadsOn, Quotable;
    QuoteIsNoNul(quote);
    var st1 := Consume(st, quote);
    Opens(st, quote);
    ReadsOnOne(st, quote);
    ReadsOnJoin(st, [quote], text);
    InsideQuotes(st1, quote, text);
    var st2 := ReadsOn(st1, text);
    if text != "" {
      InsidePrev(quote, text);
    }
    Closes(st2, quote);
    ReadsOnOne(st2, quote);
    ReadsOnJoin(st, [quote] + text, [quote]);
    assert "" + text == text;
  }

  lemma InsidePrev(quote: char, text: string)
    requires Quotable(quote, text) && text != ""
    ensures Last(text) != '\0'
  {
  }

  lemma QuoteIsNoNul(quote: char)
    requires IsQuote(quote)
    ensures quote != '\0' && !IsSpace(quote)
  {
  }

  /** Behind a space, outside quotes, it adds exactly that word. */
  lemma QuotedWord(p: string, quote: char, text: string)
    requires p != "" && IsSpace(Last(p)) && Reads(p).q == OUTSIDE && Reads(p).word == ""
    requires IsQuote(quote) && Quotable(quote, text)
    ensures AllWords(Reads(p + [quote] + text + [quote])) == AllWords(Reads(p)) + [text]
    ensures Reads(p + [quote] + text + [quote]).q == OUTSIDE
  {
    hide Consume, ReadsOn, IsSpace;
    assert p == DropLast(p) + [Last(p)];
    LastRead(p);
    SpaceIsNoNul(Last(p));
    QuotedString(Reads(p), quote, text);
    assert p + [quote] + text + [quote] == p + ([quote] + text + [quote]);
    ReadsIsReadsOn(p);
    ReadsIsReadsOn(p + [quote] + text + [quote]);
    ReadsOnJoin(START, p, [quote] + text + [quote]);
  }

  lemma LastRead(p: string)
    requires p != ""
    ensures Reads(p).prev == Last(p)
  {
  }

  lemma SpaceIsNoNul(c: char)
    requires IsSpace(c)
    ensures c != '\0'
  {
  }

  // ---------------------------------------------------------------------------------------
  // Whole lines.

  /** A quoted string, and the unquoted text behind it. */
  datatype Piece = Piece(quote: char, text: string, behind: string)

  predicate PieceOK(p: Piece) {
    IsQuote(p.quote) && Quotable(p.quote, p.text) && Unquoted(p.behind)
  }

  predicate PiecesOK(pieces: seq<Piece>) {
    forall k :: 0 <= k < |pieces| ==> PieceOK(pieces[k])
  }

  function Written(pieces: seq<Piece>): string {
    if pieces == [] then ""
    else [pieces[0].quote] + pieces[0].text + [pieces[0].quote] + pieces[0].behind + Written(pieces[1..])
  }

  /** The words of unquoted text that follows a quoted string: its tokens; but an operator, or another quoted
      string, directly behind the closing quote puts an empty word in between. */
  function WordsBehind(text: string, more: bool): seq<string> {
    if text == "" then if more then [""] else []
    else (if IsOp(text[0]) then [""] else []) + Tokens(text)
  }

  function WordsOf(pieces: seq<Piece>): seq<string> {
    if pieces == [] then []
    else [pieces[0].text] + WordsBehind(pieces[0].behind, |pieces| > 1) + WordsOf(pieces[1..])
  }

  /** After unquoted text: `words` are the words so far, the one in progress included. */
  predicate AfterText(st: ParseState, words: seq<string>) {
    && st.q == OUTSIDE && st.prev != '\0' && !IsQuote(st.prev)
    && AllWords(st) == words && (st.word == "" <==> IsSpace(st.prev))
  }

  /** Right behind a closing quote. */
  predicate AfterQuote(st: ParseState, words: seq<string>) {
    st == ParseState(words, "", OUTSIDE, st.prev) && IsQuote(st.prev)
  }

  /** After the unquoted text `p`, not empty, that follows `words`. */
  predicate AfterTokens(st: ParseState, words: seq<string>, p: string) {
    p != "" && AfterText(st, words + Tokens(p)) && st.prev == Last(p)
  }

  lemma MoreTokens(st: ParseState, words: seq<string>, p: string, c: char)
    requires AfterTokens(st, words, p) && Unquoted([c])
    ensures AfterTokens(Consume(st, c), words, p + [c])
  {
    hide Tokens, Consume, IsSpace, IsOp, IsQuote;
    assert [c][0] == c && Last(p + [c]) == c;
    NulIsNoQuote();
    UnquotedConsume(st, c);
    TokensSnoc(p, c);
    if !AtBoundary(p) && IsWordChar(c) {
      assert p[|p| - 1] == Last(p) && st.word != "";
      var all := words + Tokens(p);
      assert all == st.words + [st.word];
      assert DropLast(all) == st.words && Last(all) == st.word;
      assert DropLast(all) == words + DropLast(Tokens(p));
    }
  }

  lemma {:induction false} ReadsTokensOn(st: ParseState, words: seq<string>, p: string, rest: string)
    requires AfterTokens(st, words, p) && Unquoted(rest)
    ensures AfterTokens(ReadsOn(st, rest), words, p + rest)
    decreases |rest|
  {
    hide Tokens, Consume, AfterTokens, IsQuote;
    if rest == "" {
      assert p + rest == p;
    } else {
      assert rest == [rest[0]] + rest[1..];
      UnquotedParts([rest[0]], rest[1..]);
      MoreTokens(st, words, p, rest[0]);
      ReadsTokensOn(Consume(st, rest[0]), words, p + [rest[0]], rest[1..]);
      assert p + [rest[0]] + rest[1..] == p + rest;
    }
  }

  /** The first character behind a closing quote. */
  lemma FirstBehind(st: ParseState, words: seq<string>, c: char)
    requires AfterQuote(st, words) && Unquoted([c])
    ensures AfterTokens(Consume(st, c), words + (if IsOp(c) then [""] else []), [c])
  {
    hide Tokens;
    assert [c][0] == c && Last([c]) == c;
    TokensOfOne(c);
    QuoteIsNoNul(st.prev);
    var st1 := Consume(st, c);
    if IsSpace(c) {
      assert st1.words == words && st1.word == "";
      assert words + [] + [] == words;
    } else if IsOp(c) {
      assert st1.words == words + [""] && st1.word == [c];
    } else {
      assert st1.words == words && st1.word == [c];
      assert words + [] + [[c]] == words + [[c]];
    }
  }

  /** Unquoted text behind a closing quote. */
  lemma TextBehind(st: ParseState, words: seq<string>, text: string)
    requires AfterQuote(st, words) && Unquoted(text) && text != ""
    ensures AfterText(ReadsOn(st, text), words + WordsBehind(text, true))
    ensures WordsBehind(text, true) == WordsBehind(text, false)
  {
    hide Tokens, Consume, AfterText, IsOp, IsQuote;
    var c := text[0];
    assert text == [c] + text[1..];
    UnquotedParts([c], text[1..]);
    FirstBehind(st, words, c);
    var before := words + if IsOp(c) then [""] else [];
    ReadsTokensOn(Consume(st, c), before, [c], text[1..]);
    assert words + WordsBehind(text, true) == before + Tokens(text);
  }

  /** A quoted string after text, or right behind another. */
  lemma NextString(st: ParseState, words: seq<string>, quote: char, text: string)
    requires AfterText(st, words) || AfterQuote(st, words)
    requires IsQuote(quote) && Quotable(quote, text)
    ensures AfterQuote(ReadsOn(st, [quote] + text + [quote]),
                       words + (if AfterQuote(st, words) then [""] else []) + [text])
  {
    hide ReadsOn, Quotable;
    if AfterQuote(st, words) {
      QuoteIsNoNul(st.prev);
    }
    QuotedString(st, quote, text);
  }

  /** Before the quoted strings `pieces`, the words so far being `words`: behind unquoted text, or behind
      another string, with the empty word in between already counted. */
  predicate Before(st: ParseState, words: seq<string>, pieces: seq<Piece>) {
    || AfterText(st, words)
    || (pieces == [] && AfterQuote(st, words))
    || (pieces != [] && words != [] && Last(words) == "" && AfterQuote(st, DropLast(words)))
  }

  /** One quoted string. */
  lemma ReadsString(st: ParseState, words: seq<string>, pieces: seq<Piece>)
    requires pieces != [] && Before(st, words, pieces) && PieceOK(pieces[0])
    ensures var p := pieces[0]; AfterQuote(ReadsOn(st, [p.quote] + p.text + [p.quote]), words + [p.text])
  {
    hide AfterText, AfterQuote, ReadsOn, IsQuote, Quotable, Unquoted;
    var p := pieces[0];
    if AfterText(st, words) {
      NotBoth(st, words);
      NextString(st, words, p.quote, p.text);
      assert words + [] == words;
    } else {
      NextString(st, DropLast(words), p.quote, p.text);
      assert DropLast(words) + [""] == words;
    }
  }

  /** The text behind it. */
  lemma ReadsBehind(st: ParseState, words: seq<string>, text: string, rest: seq<Piece>)
    requires AfterQuote(st, words) && Unquoted(text)
    ensures Before(ReadsOn(st, text), words + WordsBehind(text, rest != []), rest)
  {
    hide AfterText, AfterQuote, Unquoted, Tokens, IsOp;
    if text != "" {
      TextBehind(st, words, text);
    } else if rest != [] {
      assert DropLast(words + [""]) == words;
    } else {
      assert words + [] == words;
    }
  }

  lemma WrittenFirst(pieces: seq<Piece>)
    requires pieces != []
    ensures var p := pieces[0];
            Written(pieces) == [p.quote] + p.text + [p.quote] + p.behind + Written(pieces[1..])
  {
  }

  lemma WordsFirst(words: seq<string>, pieces: seq<Piece>)
    requires pieces != []
    ensures var p := pieces[0];
            words + [p.text] + WordsBehind(p.behind, pieces[1..] != []) + WordsOf(pieces[1..]) == words + WordsOf(pieces)
  {
    hide WordsBehind;
  }

  lemma NothingWritten()
    ensures Written([]) == "" && WordsOf([]) == []
  {
  }

  lemma {:induction false} ReadsPieces(st: ParseState, words: seq<string>, pieces: seq<Piece>)
    requires Before(st, words, pieces) && PiecesOK(pieces)
    ensures AllWords(ReadsOn(st, Written(pieces))) == words + WordsOf(pieces)
    decreases |pieces|
  {
    hide Tokens, IsOp, PieceOK, Written, WordsOf, ReadsOn, Before, AfterQuote, WordsBehind;
    if pieces == [] {
      NoPieces(st, words);
      NothingWritten();
      assert words + [] == words;
    } else {
      var p, rest := pieces[0], pieces[1..];
      var quoted := [p.quote] + p.text + [p.quote];
      var st1 := ReadsOn(st, quoted);
      var words1 := words + [p.text];
      ReadsString(st, words, pieces);
      PieceText(p);
      var st2 := ReadsOn(st1, p.behind);
      var words2 := words1 + WordsBehind(p.behind, rest != []);
      ReadsBehind(st1, words1, p.behind, rest);
      ReadsPieces(st2, words2, rest);
      ReadsOnJoin(st, quoted, p.behind);
      ReadsOnJoin(st, quoted + p.behind, Written(rest));
      WrittenFirst(pieces);
      WordsFirst(words, pieces);
    }
  }

  lemma NoPieces(st: ParseState, words: seq<string>)
    requires Before(st, words, [])
    ensures AllWords(ReadsOn(st, "")) == words
  {
  }

  lemma PieceText(p: Piece)
    requires PieceOK(p)
    ensures Unquoted(p.behind)
  {
  }

  lemma NotBoth(st: ParseState, words: seq<string>)
    requires AfterText(st, words)
    ensures !AfterQuote(st, words)
  {
  }

  /** The words of any line that does not begin with a quote and closes every quote. */
  lemma QuotedLine(start: string, pieces: seq<Piece>)
    requires start != "" && Unquoted(start) && PiecesOK(pieces)
    ensures AllWords(Reads(start + Written(pieces))) == Tokens(start) + WordsOf(pieces)
  {
    hide Tokens, Written, WordsOf, AfterText;
    ReadsTokens(start);
    StartsAsText(start);
    ReadsPieces(Reads(start), Tokens(start), pieces);
    ReadsIsReadsOn(start);
    ReadsIsReadsOn(start + Written(pieces));
    ReadsOnJoin(START, start, Written(pieces));
  }

  lemma StartsAsText(start: string)
    requires start != "" && Unquoted(start) && Read(start, Reads(start))
    ensures AfterText(Reads(start), Tokens(start))
  {
    hide Tokens, Reads;
    assert start[|start| - 1] == Last(start);
  }

  /** What parse returns of such a line, if it fits. */
  lemma QuotedLineParsed(start: string, pieces: seq<Piece>, argcMax: int, bufLen: int)
    requires start != "" && Unquoted(start) && PiecesOK(pieces) && argcMax >= 1 && bufLen >= 1
    requires var words := Tokens(start) + WordsOf(pieces); |words| < argcMax - 1 && |Flatten(words)| < bufLen - 1
    ensures ParseWords(start + Written(pieces), argcMax, bufLen) == Tokens(start) + WordsOf(pieces)
  {
    hide Tokens, Written, WordsOf, Flatten;
    QuotedLine(start, pieces);
    ParseReadsAll(start + Written(pieces), argcMax, bufLen);
  }

  /** parse returns all the words of a line, quoted or not, that fit with some room. */
  lemma ParseReadsAll(line: string, argcMax: int, bufLen: int)
    requires argcMax >= 1 && bufLen >= 1
    requires var words := AllWords(Reads(line)); |words| < argcMax - 1 && |Flatten(words)| < bufLen - 1
    ensures ParseWords(line, argcMax, bufLen) == AllWords(Reads(line))
  {
    hide Reads, Full, ParseWords, Flatten, AllWords, Ptr;
    var n := StopPlace(line, argcMax, bufLen);
    assert line[..|line|] == line;
    if n < |line| {
      ReadsGrow(line, n, |line|);
      AllWordsSizes(Reads(line));
      FullIs(Reads(line[..n]), argcMax, bufLen);
      assert false;
    }
  }

  // ---------------------------------------------------------------------------------------
  // A quote that begins the line.

  /** It opens nothing: it is the first character of a word. */
  lemma FirstQuote(quote: char)
    requires IsQuote(quote)
    ensures Reads([quote]) == ParseState([], [quote], OUTSIDE, quote)
  {
    assert [quote][..0] == "";
  }

  /** A space directly behind it ends nothing either. */
  lemma SpaceBehindFirstQuote(quote: char)
    requires IsQuote(quote)
    ensures Reads([quote, ' ']) == ParseState([], [quote], OUTSIDE, ' ')
  {
    FirstQuote(quote);
    assert [quote, ' '][..1] == [quote];
  }

  /** So `"b c"` at the start of a line is not one word: there are two, the first with its quote, and what
      follows is taken to be quoted. */
  lemma FirstStringExample()
    ensures Reads("\"b c\"") == ParseState(["\"b", "c"], "", Quotes(true, false), '"')
  {
    hide Consume;
    var line := "\"b c\"";
    FirstQuote('"');
    assert line[..1] == ['"'] && line[..5] == line;
    ReadsOneMore(line, 1);
    ReadsOneMore(line, 2);
    ReadsOneMore(line, 3);
    ReadsOneMore(line, 4);
    FirstStringSteps();
  }

  lemma FirstStringSteps()
    ensures Consume(ParseState([], "\"", OUTSIDE, '"'), 'b') == ParseState([], "\"b", OUTSIDE, 'b')
    ensures Consume(ParseState([], "\"b", OUTSIDE, 'b'), ' ') == ParseState(["\"b"], "", OUTSIDE, ' ')
    ensures Consume(ParseState(["\"b"], "", OUTSIDE, ' '), 'c') == ParseState(["\"b"], "c", OUTSIDE, 'c')
    ensures Consume(ParseState(["\"b"], "c", OUTSIDE, 'c'), '"')
         == ParseState(["\"b", "c"], "", Quotes(true, false), '"')
  {
  }

  // ---------------------------------------------------------------------------------------
  // Empty words.

  lemma {:induction false} TokensNotEmpty(line: string)
    ensures "" !in Tokens(line)
    decreases |line|
  {
    hide Tokens;
    if line == "" {
      TokensOfNothing();
    } else if IsWordChar(line[0]) {
      FirstToken(line);
      TokensNotEmpty(line[Run(line)..]);
    } else {
      TokensStep(line);
      TokensNotEmpty(line[1..]);
    }
  }

  /** A piece that makes an empty word: an empty string, or one with an operator or another string directly
      behind its closing quote. */
  predicate MakesEmpty(pieces: seq<Piece>, k: nat)
    requires k < |pieces|
  {
    pieces[k].text == ""
    || (if pieces[k].behind == "" then k + 1 < |pieces| else IsOp(pieces[k].behind[0]))
  }

  /** Empty words come exactly from those.  The shell takes them for commands and arguments. */
  lemma {:induction false} EmptyWords(pieces: seq<Piece>)
    ensures "" in WordsOf(pieces) <==> exists k :: 0 <= k < |pieces| && MakesEmpty(pieces, k)
    decreases |pieces|
  {
    hide Tokens, IsOp, MakesEmpty;
    if pieces != [] {
      EmptyWords(pieces[1..]);
      EmptyFirst(pieces);
      if k :| 0 <= k < |pieces| && MakesEmpty(pieces, k) {
        if k > 0 {
          EmptyShift(pieces, k - 1);
        }
      }
      if k :| 0 <= k < |pieces[1..]| && MakesEmpty(pieces[1..], k) {
        EmptyShift(pieces, k);
      }
    }
  }

  lemma EmptyFirst(pieces: seq<Piece>)
    requires pieces != []
    ensures "" in WordsOf(pieces) <==> MakesEmpty(pieces, 0) || "" in WordsOf(pieces[1..])
  {
    hide Tokens;
    TokensNotEmpty(pieces[0].behind);
  }

  lemma EmptyShift(pieces: seq<Piece>, k: nat)
    requires k + 1 < |pieces|
    ensures MakesEmpty(pieces[1..], k) <==> MakesEmpty(pieces, k + 1)
  {
  }

  lemma SomeTokens()
    ensures Tokens("a ") == ["a"] && Tokens("|c") == ["|", "c"]
  {
    hide Tokens;
    TokensOfOne('a');
    TokensOfOne(' ');
    TokensOfOne('|');
    TokensOfOne('c');
    assert "a " == "a" + " " && "|c" == "|" + "c";
    TokensSplit("a", " ");
    TokensSplit("|", "c");
  }

  /** `a "b"|c` has an empty word between the string and the operator. */
  lemma EmptyWordExample()
    ensures AllWords(Reads("a \"b\"|c")) == ["a", "b", "", "|", "c"]
  {
    hide Reads, Tokens;
    var pieces := [Piece('"', "b", "|c")];
    assert pieces[1..] == [];
    assert "a " + Written(pieces) == "a \"b\"|c";
    QuotedLine("a ", pieces);
    SomeTokens();
  }
}
