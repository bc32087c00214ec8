/** What the tokenizer is meant to find on an unquoted line, said without its previous-character
    rules, and the proof that it finds it. */
module ShellWords {
  import opened ShellTokens

  predicate IsWordChar(c: char) {
    !IsSpace(c) && !IsOp(c)
  }

  /** The length of the run of word characters a line starts with. */
  function Run(line: string): (n: nat)
    ensures n <= |line|
    ensures forall k :: 0 <= k < n ==> IsWordChar(line[k])
    ensures n < |line| ==> !IsWordChar(line[n])
  {
    if line == "" || !IsWordChar(line[0]) then 0 else 1 + Run(line[1..])
  }

  /** Maximal runs of word characters, and each operator its own token. */
  function Tokens(line: string): seq<string>
    decreases |line|
  {
    if line == "" then []
    else if IsSpace(line[0]) then Tokens(line[1..])
    else if IsOp(line[0]) then [[line[0]]] + Tokens(line[1..])
    else [line[..Run(line)]] + Tokens(line[Run(line)..])
  }

  /** No quote and no NUL. */
  predicate Unquoted(line: string) {
    forall k :: 0 <= k < |line| ==> !IsQuote(line[k]) && line[k] != '\0'
  }

  /** A character written after `p` cannot belong to a word of `p`. */
  predicate AtBoundary(p: string) {
    p == "" || !IsWordChar(p[|p| - 1])
  }

  lemma RunIs(line: string, n: nat)
    requires n <= |line| && (forall k :: 0 <= k < n ==> IsWordChar(line[k]))
    requires n == |line| || !IsWordChar(line[n])
    ensures Run(line) == n
  {
  }

  /** The tokens before and from the end of the first token. */
  lemma FirstToken(p: string)
    requires p != "" && IsWordChar(p[0])
    ensures 0 < Run(p) && Tokens(p) == [p[..Run(p)]] + Tokens(p[Run(p)..])
  {
  }

  lemma TokensStep(p: string)
    requires p != "" && !IsWordChar(p[0])
    ensures Tokens(p) == (if IsSpace(p[0]) then [] else [[p[0]]]) + Tokens(p[1..])
  {
  }

  /** Text can be cut wherever no word crosses the cut. */
  lemma {:induction false} TokensSplit(p: string, b: string)
    requires AtBoundary(p) || b == "" || !IsWordChar(b[0])
    ensures Tokens(p + b) == Tokens(p) + Tokens(b)
    decreases |p|
  {
    hide Tokens, IsSpace, IsOp;
    if p == "" {
      TokensOfNothing();
      assert p + b == b;
    } else if !IsWordChar(p[0]) {
      assert (p + b)[1..] == p[1..] + b;
      TokensStep(p);
      TokensStep(p + b);
      TokensSplit(p[1..], b);
    } else {
      var n := Run(p);
      RunIs(p + b, n);
      FirstToken(p);
      FirstToken(p + b);
      assert (p + b)[n..] == p[n..] + b && (p + b)[..n] == p[..n];
      TokensSplit(p[n..], b);
    }
  }

  /** A word character after a word character lengthens the last token and nothing else. */
  lemma {:induction false} TokensExtend(p: string, c: char)
    requires !AtBoundary(p) && IsWordChar(c)
    ensures Tokens(p) != []
    ensures Tokens(p + [c]) == DropLast(Tokens(p)) + [Last(Tokens(p)) + [c]]
    decreases |p|
  {
    hide Tokens, IsSpace, IsOp;
    TokensOfNothing();
    if !IsWordChar(p[0]) {
      assert (p + [c])[1..] == p[1..] + [c];
      TokensStep(p);
      TokensStep(p + [c]);
      TokensExtend(p[1..], c);
    } else {
      var n := Run(p);
      FirstToken(p);
      FirstToken(p + [c]);
      if n < |p| {
        RunIs(p + [c], n);
        assert (p + [c])[n..] == p[n..] + [c] && (p + [c])[..n] == p[..n];
        TokensExtend(p[n..], c);
      } else {
        RunIs(p + [c], |p| + 1);
        assert p[..n] == p && p[n..] == "" && (p + [c])[..n + 1] == p + [c] && (p + [c])[n + 1..] == "";
      }
    }
  }

  function Last<T>(s: seq<T>): T
    requires s != []
  {
    s[|s| - 1]
  }

  function DropLast<T>(s: seq<T>): seq<T>
    requires s != []
  {
    s[..|s| - 1]
  }

  lemma TokensOfOne(c: char)
    ensures Tokens([c]) == if IsSpace(c) then [] else [[c]]
  {
    assert [c][1..] == "";
    if IsWordChar(c) {
      RunIs([c], 1);
      assert [c][..1] == [c];
    }
  }

  /** What one more character does to the tokens of `p`. */
  lemma TokensSnoc(p: string, c: char)
    ensures IsSpace(c) ==> Tokens(p + [c]) == Tokens(p)
    ensures !IsSpace(c) && (AtBoundary(p) || IsOp(c)) ==> Tokens(p + [c]) == Tokens(p) + [[c]]
    ensures !AtBoundary(p) && IsWordChar(c) ==>
      Tokens(p) != [] && Tokens(p + [c]) == DropLast(Tokens(p)) + [Last(Tokens(p)) + [c]]
  {
    TokensOfOne(c);
    if !AtBoundary(p) && IsWordChar(c) {
      TokensExtend(p, c);
    } else {
      TokensSplit(p, [c]);
    }
  }

  // ---------------------------------------------------------------------------------------
  // The tokenizer finds these tokens.

  /** `st` is where parse stands after the unquoted text `p`. */
  predicate Read(p: string, st: ParseState) {
    && AllWords(st) == Tokens(p)
    && st.q == Quotes(false, false)
    && st.prev == (if p == "" then '\0' else Last(p))
    && (st.word == "" <==> p == "" || IsSpace(Last(p)))
  }

  /** What one unquoted character does to the words read so far. */
  lemma UnquotedConsume(st: ParseState, c: char)
    requires st.q == Quotes(false, false) && !IsQuote(st.prev) && !IsQuote(c) && c != '\0'
    requires st.word == "" <==> st.prev == '\0' || IsSpace(st.prev)
    ensures var st1 := Consume(st, c);
            && st1.q == st.q && st1.prev == c
            && (st1.word == "" <==> IsSpace(c))
            && st1.words ==
                 (if st.word != "" && (IsSpace(c) || IsOp(c) || IsOp(st.prev)) then st.words + [st.word]
                  else st.words)
            && AllWords(st1) ==
                 (if IsSpace(c) then AllWords(st)
                  else if st.word == "" || IsOp(c) || IsOp(st.prev) then AllWords(st) + [[c]]
                  else st.words + [st.word + [c]])
  {
    var st1 := Consume(st, c);
    if st.word == "" {
      assert st1.words == st.words && st1.word == if IsSpace(c) then "" else [c];
    } else if IsSpace(c) || IsOp(c) || IsOp(st.prev) {
      assert st1.words == st.words + [st.word] && st1.word == if IsSpace(c) then "" else [c];
    }
  }

  lemma ConsumeReads(p: string, st: ParseState, c: char)
    requires Unquoted(p + [c]) && Read(p, st)
    ensures Read(p + [c], Consume(st, c))
  {
    hide Tokens, Consume, IsSpace, IsOp, IsQuote;
    assert (p + [c])[|p|] == c && Last(p + [c]) == c;
    assert p != "" ==> (p + [c])[|p| - 1] == Last(p);
    NulIsNoQuote();
    UnquotedConsume(st, c);
    TokensSnoc(p, c);
    if !AtBoundary(p) {
      assert DropLast(Tokens(p)) == st.words;
    }
  }

  lemma NulIsNoQuote()
    ensures !IsQuote('\0') && forall c :: IsOp(c) ==> !IsSpace(c)
  {
  }

  lemma {:induction false} ParseReads(p: string, st: ParseState, rest: string, argcMax: int, bufLen: int)
    requires Unquoted(p + rest) && Read(p, st)
    ensures Read(p + rest[..Consumed(st, rest, argcMax, bufLen)], ParseFrom(st, rest, argcMax, bufLen))
    decreases |rest|
  {
    hide Tokens, Read, Consume, Full;
    var n := Consumed(st, rest, argcMax, bufLen);
    if rest == "" {
      assert p + rest[..n] == p;
    } else {
      var c := rest[0];
      assert p + [c] == (p + rest)[..|p| + 1];
      ConsumeReads(p, st, c);
      var st1 := Consume(st, c);
      assert p + [c] + rest[1..] == p + rest;
      assert p + rest[..n] == p + [c] + rest[1..][..n - 1];
      if Full(st1, argcMax, bufLen) {
        assert p + rest[..n] == p + [c];
      } else {
        ParseReads(p + [c], st1, rest[1..], argcMax, bufLen);
      }
    }
  }

  /** Whatever the limits, parse returns the tokens of the part of the line it looked at. */
  lemma ParseFindsTokensOfPrefix(line: string, argcMax: int, bufLen: int)
    requires Unquoted(line)
    ensures ParseWords(line, argcMax, bufLen) == Tokens(line[..Consumed(START, line, argcMax, bufLen)])
  {
    var n := Consumed(START, line, argcMax, bufLen);
    assert "" + line == line && "" + line[..n] == line[..n];
    ParseReads("", START, line, argcMax, bufLen);
  }

  // ---------------------------------------------------------------------------------------
  // When the limits cut nothing off.

  /** More text never takes a token away; if it adds anything, it lengthens what is written, and
      after a space it adds a token. */
  lemma {:induction false} TokensGrow(p: string, r: string)
    ensures |Tokens(p)| <= |Tokens(p + r)| && |Flatten(Tokens(p))| <= |Flatten(Tokens(p + r))|
    ensures Tokens(p) == Tokens(p + r)
         || |Flatten(Tokens(p))| < |Flatten(Tokens(p + r))|
    ensures (p == "" || IsSpace(Last(p))) && Tokens(p) != Tokens(p + r) ==>
         |Tokens(p)| < |Tokens(p + r)| && |Flatten(Tokens(p))| + 2 <= |Flatten(Tokens(p + r))|
    decreases |r|
  {
    hide Tokens;
    if r == "" {
      assert p + r == p;
    } else {
      var q, c := DropLast(r), Last(r);
      assert p + r == p + q + [c];
      TokensGrow(p, q);
      TokensSnoc(p + q, c);
      var ts := Tokens(p + q);
      FlattenAppend(ts, [c]);
      if ts != [] {
        assert ts == DropLast(ts) + [Last(ts)];
        FlattenAppend(DropLast(ts), Last(ts));
        FlattenAppend(DropLast(ts), Last(ts) + [c]);
      }
      if (p == "" || IsSpace(Last(p))) && Tokens(p) == ts {
        StillBlank(p, q);
      }
    }
  }

  /** Text after a space that adds no token is itself only spaces. */
  lemma StillBlank(p: string, q: string)
    requires p == "" || IsSpace(Last(p))
    requires Tokens(p + q) == Tokens(p)
    ensures p + q == "" || IsSpace(Last(p + q))
  {
    hide Tokens;
    TokensSplit(p, q);
    assert Tokens(q) == [];
    OnlyBlanks(q);
  }

  lemma OnlyBlanks(q: string)
    requires Tokens(q) == []
    ensures forall k :: 0 <= k < |q| ==> IsSpace(q[k])
  {
    if q != "" {
      OnlyBlanks(q[1..]);
    }
  }

  /** The limits a line's tokens must meet. */
  predicate Fits(words: seq<string>, argcMax: int, bufLen: int) {
    |words| < argcMax && |Flatten(words)| <= bufLen
  }

  /** If the buffer is full although the tokens fit, only spaces are left. */
  lemma BufferFullMeansDone(p: string, st: ParseState, r: string, bufLen: int)
    requires Read(p, st) && |Flatten(st.words)| + |st.word| > bufLen - 2 && p != ""
    requires |Flatten(Tokens(p + r))| <= bufLen
    ensures Tokens(p) == Tokens(p + r)
  {
    hide Tokens;
    TokensGrow(p, r);
    FlattenAppend(st.words, st.word);
  }

  /** If the loop ends early although the tokens fit, only spaces are left. */
  lemma FullMeansDone(p: string, st: ParseState, r: string, argcMax: int, bufLen: int)
    requires Read(p, st) && Full(st, argcMax, bufLen) && p != ""
    requires Fits(Tokens(p + r), argcMax, bufLen)
    ensures Tokens(p) == Tokens(p + r)
  {
    hide Tokens;
    if |Flatten(st.words)| + |st.word| > bufLen - 2 {
      BufferFullMeansDone(p, st, r, bufLen);
    } else {
      TokensGrow(p, r);
    }
  }

  lemma {:induction false} ReadAll(p: string, st: ParseState, rest: string, argcMax: int, bufLen: int)
    requires Unquoted(p + rest) && Read(p, st)
    requires Fits(Tokens(p + rest), argcMax, bufLen)
    ensures AllWords(ParseFrom(st, rest, argcMax, bufLen)) == Tokens(p + rest)
    decreases |rest|
  {
    hide Tokens, Consume, Full, Fits;
    if rest == "" {
      assert p + rest == p;
    } else {
      var c := rest[0];
      assert p + [c] == (p + rest)[..|p| + 1] && p + [c] + rest[1..] == p + rest;
      ConsumeReads(p, st, c);
      var st1 := Consume(st, c);
      if Full(st1, argcMax, bufLen) {
        FullMeansDone(p + [c], st1, rest[1..], argcMax, bufLen);
      } else {
        ReadAll(p + [c], st1, rest[1..], argcMax, bufLen);
      }
    }
  }

  /** Within the limits, parse returns exactly the tokens of the line. */
  lemma ParseIsTokens(line: string, argcMax: int, bufLen: int)
    requires Unquoted(line) && Fits(Tokens(line), argcMax, bufLen)
    ensures ParseWords(line, argcMax, bufLen) == Tokens(line)
  {
    hide Tokens;
    TokensOfNothing();
    assert "" + line == line;
    ReadAll("", START, line, argcMax, bufLen);
  }

  lemma TokensOfNothing()
    ensures Tokens("") == []
  {
  }

  // ---------------------------------------------------------------------------------------
  // Where a line ends.

  /** The last token is one character, and is at the start of the line or directly behind another
      token. */
  predicate TightEnd(line: string) {
    exists n :: 0 <= n < |line| && TightEndAt(line, n)
  }

  predicate TightEndAt(line: string, n: nat)
    requires n < |line|
  {
    BeginsToken(line, n) && Blank(line[n + 1..])
  }

  /** A token begins at character `n`, at the start of the line or directly behind another token. */
  predicate BeginsToken(line: string, n: nat)
    requires n < |line|
  {
    !IsSpace(line[n]) && (n > 0 ==> !IsSpace(line[n - 1]) && (IsOp(line[n - 1]) || IsOp(line[n])))
  }

  /** Text that adds no token and lengthens none is space. */
  lemma {:induction false} NothingMore(p: string, r: string)
    requires Tokens(p + r) == Tokens(p)
    ensures Blank(r)
    decreases |r|
  {
    hide Tokens, IsSpace, IsOp;
    if r != "" {
      var q, c := DropLast(r), Last(r);
      assert p + r == p + q + [c];
      TokensGrow(p, q);
      TokensGrow(p + q, [c]);
      TokensSnoc(p + q, c);
      NothingMore(p, q);
    }
  }

  lemma BlankAddsNothing(p: string, r: string)
    requires Blank(r)
    ensures Tokens(p + r) == Tokens(p)
  {
    hide Tokens;
    TokensOfBlank(r);
    TokensSplit(p, r);
  }

  /** What a tight end says about the tokens. */
  lemma TightEndTokens(line: string, n: nat)
    requires n < |line| && TightEndAt(line, n)
    ensures Tokens(line) == Tokens(line[..n + 1]) == Tokens(line[..n]) + [[line[n]]]
  {
    hide Tokens, IsSpace, IsOp;
    assert line == line[..n + 1] + line[n + 1..] && line[..n + 1] == line[..n] + [line[n]];
    assert n > 0 ==> Last(line[..n]) == line[n - 1];
    BlankAddsNothing(line[..n + 1], line[n + 1..]);
    TokensSnoc(line[..n], line[n]);
  }

  /** A shorter part of a line has no more tokens. */
  lemma PrefixTokens(line: string, i: nat, j: nat)
    requires i <= j <= |line|
    ensures |Tokens(line[..i])| <= |Tokens(line[..j])|
    ensures Tokens(line[..i]) == Tokens(line[..j]) ==> Blank(line[i..j])
    ensures i > 0 && IsSpace(line[i - 1]) && |Tokens(line[..i])| == |Tokens(line[..j])| ==> Blank(line[i..j])
  {
    hide Tokens;
    assert line[..j] == line[..i] + line[i..j];
    TokensGrow(line[..i], line[i..j]);
    if Tokens(line[..i]) == Tokens(line[..j]) {
      NothingMore(line[..i], line[i..j]);
    }
  }

  lemma BlankAt(line: string, i: nat, j: nat, k: nat)
    requires i <= j <= |line| && k < |line|
    ensures Blank(line[i..j]) && i <= k < j ==> IsSpace(line[k])
  {
    if Blank(line[i..j]) && i <= k < j {
      assert line[i..j][k - i] == line[k];
    }
  }

  // ---------------------------------------------------------------------------------------
  // When argc_max entries and buf_len bytes are too few.

  lemma {:induction false} ReadsTokens(p: string)
    requires Unquoted(p)
    ensures Read(p, Reads(p))
    decreases |p|
  {
    hide Tokens, Consume, IsQuote;
    TokensOfNothing();
    if p != "" {
      assert p == DropLast(p) + [Last(p)];
      ReadsTokens(DropLast(p));
      ConsumeReads(DropLast(p), Reads(DropLast(p)), Last(p));
    }
  }

  lemma StartsWordIs(line: string, m: nat)
    requires Unquoted(line) && m < |line|
    ensures StartsWord(line, m) <==> BeginsToken(line, m)
  {
    hide Tokens, Reads;
    ReadsTokens(line[..m]);
    assert m > 0 ==> Last(line[..m]) == line[m - 1];
  }

  /** The conditions of CallerSizes in terms of the tokens before character `m`. */
  lemma TakesLastInTokens(line: string, m: nat, argcMax: int, bufLen: int)
    requires Unquoted(line) && m < |line| && argcMax >= 1 && bufLen >= 1
    ensures TakesLastSlot(line, m, argcMax, bufLen) <==>
              BeginsToken(line, m)
              && |Tokens(line[..m])| == argcMax - 1 && |Flatten(Tokens(line[..m]))| < bufLen
    ensures TakesLastByte(line, m, argcMax, bufLen) <==>
              BeginsToken(line, m)
              && |Flatten(Tokens(line[..m]))| == bufLen - 1 && |Tokens(line[..m])| < argcMax
  {
    hide Tokens, Reads, StartsWord, Flatten, Split, IsSpace, IsOp;
    StartsWordIs(line, m);
    ReadsTokens(line[..m]);
    AllWordsSizes(Reads(line[..m]));
    TokensOfNothing();
    ReadsNothing();
    if m > 0 {
      assert Last(line[..m]) == line[m - 1];
      BeginsHasTokens(line, m);
    } else {
      assert line[..m] == "";
    }
  }

  lemma BeginsHasTokens(line: string, m: nat)
    requires 0 < m < |line|
    ensures !IsSpace(line[m - 1]) ==> Tokens(line[..m]) != [] && |Flatten(Tokens(line[..m]))| >= 2
  {
    hide Tokens;
    var p := line[..m - 1];
    assert line[..m] == p + [line[m - 1]];
    TokensSnoc(p, line[m - 1]);
    var ts := Tokens(line[..m]);
    if ts != [] {
      assert ts == DropLast(ts) + [Last(ts)];
      FlattenAppend(DropLast(ts), Last(ts));
    }
  }

  /** On an unquoted line parse needs one more entry, or one more byte, than it is told there are,
      exactly when a token begins directly behind another (or first of all) just where the entries, or
      the bytes, run out. */
  lemma CallerSizesInTokens(line: string, argcMax: int, bufLen: int)
    requires Unquoted(line) && argcMax >= 1 && bufLen >= 1
    ensures |ParseWords(line, argcMax, bufLen)| >= argcMax <==>
              exists m :: 0 <= m < |line| && BeginsToken(line, m)
                && |Tokens(line[..m])| == argcMax - 1 && |Flatten(Tokens(line[..m]))| < bufLen
    ensures |Flatten(ParseWords(line, argcMax, bufLen))| > bufLen <==>
              exists m :: 0 <= m < |line| && BeginsToken(line, m)
                && |Flatten(Tokens(line[..m]))| == bufLen - 1 && |Tokens(line[..m])| < argcMax
  {
    hide Tokens, ParseWords, Flatten, BeginsToken, TakesLastSlot, TakesLastByte;
    CallerSizes(line, argcMax, bufLen);
    forall m | 0 <= m < |line|
      ensures TakesLastSlot(line, m, argcMax, bufLen) <==>
                BeginsToken(line, m)
                && |Tokens(line[..m])| == argcMax - 1 && |Flatten(Tokens(line[..m]))| < bufLen
      ensures TakesLastByte(line, m, argcMax, bufLen) <==>
                BeginsToken(line, m)
                && |Flatten(Tokens(line[..m]))| == bufLen - 1 && |Tokens(line[..m])| < argcMax
    {
      TakesLastInTokens(line, m, argcMax, bufLen);
    }
  }

  /** Two words, and so three entries of argv, where argc_max is 2. */
  lemma LastSlotExample()
    ensures ParseWords("a|", 2, 100) == ["a", "|"]
  {
    hide Consume, Flatten, ParseFrom;
    assert "a|" == ['a'] + "|" && "|" == ['|'] + "";
    FlattenFew("a", "|");
    ParseOne(START, 'a', "|", 2, 100);
    LetterStarts();
    ParseOne(InWord("a", 'a'), '|', "", 2, 100);
    PipeEnds("a");
  }

  /** Five bytes where buf_len is 4. */
  lemma LastByteExample()
    ensures ParseWords("aa|", 10, 4) == ["aa", "|"] && |Flatten(["aa", "|"])| == 5
  {
    hide Consume, Flatten, ParseFrom;
    assert "aa|" == ['a'] + "a|" && "a|" == ['a'] + "|" && "|" == ['|'] + "" && "a" + ['a'] == "aa";
    FlattenFew("aa", "|");
    ParseOne(START, 'a', "a|", 10, 4);
    LetterStarts();
    ParseOne(InWord("a", 'a'), 'a', "|", 10, 4);
    LetterGoesOn("a");
    ParseOne(InWord("aa", 'a'), '|', "", 10, 4);
    PipeEnds("aa");
  }

  // ---------------------------------------------------------------------------------------
  // The exact limits.

  /** The limits in terms of the tokens of the line: one token, and one byte, more than parse is sure of
      if the last token is a single character right behind another. */
  predicate WithinLimits(line: string, argcMax: int, bufLen: int) {
    var count, bytes := |Tokens(line)|, |Flatten(Tokens(line))|;
    && (count < argcMax || (count == argcMax && TightEnd(line)))
    && (bytes <= bufLen || (bytes == bufLen + 1 && TightEnd(line)))
  }

  lemma LimitsNeeded(line: string, argcMax: int, bufLen: int)
    requires Unquoted(line) && argcMax >= 1 && bufLen >= 1
    requires ParseWords(line, argcMax, bufLen) == Tokens(line)
    ensures WithinLimits(line, argcMax, bufLen)
  {
    hide Tokens, ParseWords, Flatten, BeginsToken, TakesLastSlot, TakesLastByte, Reads, AllWords;
    var n := StopPlace(line, argcMax, bufLen);
    ParseFitsBuffers(line, argcMax, bufLen);
    ParseFindsTokensOfPrefix(line, argcMax, bufLen);
    assert line[..|line|] == line && line[n..|line|] == line[n..];
    PrefixTokens(line, n, |line|);
    if n > 0 {
      TakesLastInTokens(line, n - 1, argcMax, bufLen);
      if BeginsToken(line, n - 1) {
        assert TightEndAt(line, n - 1);
      }
    } else {
      TokensOfNothing();
      NothingRead(argcMax, bufLen);
    }
  }

  /** The tokens before a tight end are one fewer, and two bytes shorter. */
  lemma BeforeTightEnd(line: string, e: nat)
    requires e < |line| && TightEndAt(line, e)
    ensures |Tokens(line)| == |Tokens(line[..e])| + 1
    ensures |Flatten(Tokens(line))| == |Flatten(Tokens(line[..e]))| + 2
  {
    hide Tokens, BeginsToken;
    TightEndTokens(line, e);
    FlattenAppend(Tokens(line[..e]), [line[e]]);
  }

  /** The loop is not stopped before a tight end that is within the limits. */
  lemma FullBehindTightEnd(line: string, n: nat, e: nat, argcMax: int, bufLen: int)
    requires Unquoted(line) && 0 < n <= |line| && e < |line| && TightEndAt(line, e)
    requires Full(Reads(line[..n]), argcMax, bufLen) && WithinLimits(line, argcMax, bufLen)
    ensures e < n
  {
    hide Tokens, Reads, Flatten, IsSpace, IsOp, Blank;
    if n <= e {
      var p := line[..n];
      ReadsTokens(p);
      AllWordsSizes(Reads(p));
      FullIs(Reads(p), argcMax, bufLen);
      BeforeTightEnd(line, e);
      assert line[..e] == p + line[n..e] && Last(p) == line[n - 1];
      TokensGrow(p, line[n..e]);
      if IsSpace(Last(p)) {
        PrefixTokens(line, n, e);
        BlankAt(line, n, e, e - 1);
      }
      assert false;
    }
  }

  lemma FullWithin(line: string, n: nat, argcMax: int, bufLen: int)
    requires Unquoted(line) && 0 < n <= |line|
    requires Full(Reads(line[..n]), argcMax, bufLen) && WithinLimits(line, argcMax, bufLen)
    ensures Tokens(line[..n]) == Tokens(line)
  {
    hide Tokens, Reads, Full, TightEndAt;
    assert line == line[..n] + line[n..];
    if e :| 0 <= e < |line| && TightEndAt(line, e) {
      FullBehindTightEnd(line, n, e, argcMax, bufLen);
      BlankBehind(line, e, n);
      BlankAddsNothing(line[..n], line[n..]);
    } else {
      ReadsTokens(line[..n]);
      FullMeansDone(line[..n], Reads(line[..n]), line[n..], argcMax, bufLen);
    }
  }

  lemma BlankBehind(line: string, e: nat, n: nat)
    requires e < n <= |line| && TightEndAt(line, e)
    ensures Blank(line[n..])
  {
    assert line[n..] == line[e + 1..][n - e - 1..];
  }

  lemma LimitsEnough(line: string, argcMax: int, bufLen: int)
    requires Unquoted(line) && argcMax >= 1 && bufLen >= 1 && WithinLimits(line, argcMax, bufLen)
    ensures ParseWords(line, argcMax, bufLen) == Tokens(line)
  {
    hide Tokens, ParseWords, WithinLimits, Reads, Full, AllWords;
    var n := StopPlace(line, argcMax, bufLen);
    ParseFindsTokensOfPrefix(line, argcMax, bufLen);
    if n < |line| {
      FullWithin(line, n, argcMax, bufLen);
    } else {
      assert line[..n] == line;
    }
  }

  /** parse returns the tokens of an unquoted line if and only if they are within the limits. */
  lemma TokenLimit(line: string, argcMax: int, bufLen: int)
    requires Unquoted(line) && argcMax >= 1 && bufLen >= 1
    ensures ParseWords(line, argcMax, bufLen) == Tokens(line) <==> WithinLimits(line, argcMax, bufLen)
  {
    hide Tokens, ParseWords, WithinLimits;
    if ParseWords(line, argcMax, bufLen) == Tokens(line) {
      LimitsNeeded(line, argcMax, bufLen);
    }
    if WithinLimits(line, argcMax, bufLen) {
      LimitsEnough(line, argcMax, bufLen);
    }
  }

  /** On a line without operators the argc_max-th word is never read. */
  lemma WordLimit(line: string, argcMax: int, bufLen: int)
    requires Unquoted(line) && argcMax >= 2 && bufLen >= 2
    requires forall k :: 0 <= k < |line| ==> !IsOp(line[k])
    ensures ParseWords(line, argcMax, bufLen) == Tokens(line)
       <==> |Tokens(line)| < argcMax && |Flatten(Tokens(line))| <= bufLen
  {
    hide Tokens, Flatten;
    TokenLimit(line, argcMax, bufLen);
    if n :| 0 <= n < |line| && TightEndAt(line, n) {
      assert n == 0;
      BeforeTightEnd(line, n);
      assert line[..n] == "";
      TokensOfNothing();
      NothingRead(argcMax, bufLen);
    }
  }

  lemma ParseOne(st: ParseState, c: char, rest: string, argcMax: int, bufLen: int)
    ensures ParseFrom(st, [c] + rest, argcMax, bufLen)
         == if Full(Consume(st, c), argcMax, bufLen) then Consume(st, c)
            else ParseFrom(Consume(st, c), rest, argcMax, bufLen)
  {
    hide Consume, Full;
    assert ([c] + rest)[1..] == rest;
  }

  lemma FlattenFew(v: string, w: string)
    ensures |Flatten([])| == 0 && |Flatten([v])| == |v| + 1 && |Flatten([v, w])| == |v| + |w| + 2
  {
    FlattenAppend([], v);
    FlattenAppend([v], w);
    assert [] + [v] == [v] && [v] + [w] == [v, w];
  }

  /** Where the tokenizer stands after the unquoted word `w`, not empty, whose last letter is `c`. */
  function InWord(w: string, c: char): ParseState {
    ParseState([], w, START.q, c)
  }

  lemma LetterStarts()
    ensures Consume(START, 'a') == InWord("a", 'a')
  {
  }

  lemma LetterGoesOn(w: string)
    ensures Consume(InWord(w, 'a'), 'a') == InWord(w + ['a'], 'a')
  {
  }

  lemma SpaceEnds(w: string)
    ensures Consume(InWord(w, 'a'), ' ') == ParseState([w], "", START.q, ' ')
  {
  }

  lemma PipeEnds(w: string)
    ensures Consume(InWord(w, 'a'), '|') == ParseState([w], "|", START.q, '|')
  {
  }

  /** Two words where there is an entry for two: only the first comes back. */
  lemma WordLimitExample()
    ensures ParseWords("a b", 2, 100) == ["a"] && Tokens("a b") == ["a", "b"]
  {
    hide Consume, Flatten, ParseFrom, Tokens;
    assert "a b" == ['a'] + " b" && " b" == [' '] + "b";
    FlattenFew("a", "b");
    ParseOne(START, 'a', " b", 2, 100);
    LetterStarts();
    ParseOne(InWord("a", 'a'), ' ', "b", 2, 100);
    SpaceEnds("a");
    TwoTokens();
  }

  lemma TwoTokens()
    ensures Tokens("a b") == ["a", "b"]
  {
    hide Tokens;
    assert "a b" == "a" + " " + "b";
    TokensOfOne('a');
    TokensOfOne(' ');
    TokensOfOne('b');
    TokensSplit("a", " ");
    TokensSplit("a" + " ", "b");
  }

  // ---------------------------------------------------------------------------------------
  // Spaces around operators.

  predicate Blank(s: string) {
    forall k :: 0 <= k < |s| ==> IsSpace(s[k])
  }

  lemma {:induction false} TokensOfBlank(s: string)
    requires Blank(s)
    ensures Tokens(s) == []
  {
    if s != "" {
      TokensOfBlank(s[1..]);
    }
  }

  /** However much space stands on either side of an operator, it is one token between the tokens of
      the text before and the tokens of the text after. */
  lemma OperatorStandsAlone(a: string, left: string, op: char, right: string, b: string)
    requires IsOp(op) && Blank(left) && Blank(right)
    ensures Tokens(a + left + [op] + right + b) == Tokens(a) + [[op]] + Tokens(b)
  {
    hide Tokens;
    TokensOfBlank(left);
    TokensOfBlank(right);
    TokensOfOne(op);
    TokensSplit(a, left);
    TokensSplit(a + left, [op]);
    TokensSplit(a + left + [op], right);
    TokensSplit(a + left + [op] + right, b);
  }

  /** Hence parse gives the same words for the spaced and the unspaced line. */
  lemma SpacingAroundOperators(
      a: string, left: string, op: char, right: string, b: string, argcMax: int, bufLen: int)
    requires IsOp(op) && Blank(left) && Blank(right)
    requires Unquoted(a + left + [op] + right + b) && Fits(Tokens(a + [op] + b), argcMax, bufLen)
    ensures ParseWords(a + left + [op] + right + b, argcMax, bufLen) == ParseWords(a + [op] + b, argcMax, bufLen)
  {
    hide Tokens, IsQuote;
    OperatorStandsAlone(a, left, op, right, b);
    OperatorStandsAlone(a, "", op, "", b);
    assert a + "" + [op] + "" + b == a + [op] + b;
    UnquotedParts(a + left + [op] + right, b);
    UnquotedParts(a + left + [op], right);
    UnquotedParts(a + left, [op]);
    UnquotedParts(a, left);
    ParseIsTokens(a + left + [op] + right + b, argcMax, bufLen);
    ParseIsTokens(a + [op] + b, argcMax, bufLen);
  }

  lemma UnquotedParts(a: string, b: string)
    requires Unquoted(a + b)
    ensures Unquoted(a) && Unquoted(b)
  {
    assert forall k :: 0 <= k < |b| ==> b[k] == (a + b)[|a| + k];
    assert forall k :: 0 <= k < |a| ==> a[k] == (a + b)[k];
  }
}
