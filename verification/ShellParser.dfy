/** parse as it works: a tokenizer with two quote flags, and a loop that writes words and their NULs
    into one buffer and the start of each word into argv. */
module ShellParser {
  import opened ShellTokens

  /** A null pointer in argv; any other entry is an offset into the buffer. */
  const NULL := -1

  /** Where word `j` starts in Flatten(words). */
  function Offset(words: seq<string>, j: nat): nat
    requires j <= |words|
  {
    |Flatten(words[..j])|
  }

  /** The C string at `from`: the characters up to the next NUL. */
  function StringAt(buf: string, from: nat): string
    decreases |buf| - from
  {
    if from >= |buf| || buf[from] == '\0' then "" else [buf[from]] + StringAt(buf, from + 1)
  }

  predicate NoNul(s: string) {
    forall k :: 0 <= k < |s| ==> s[k] != '\0'
  }

  lemma {:induction false} FlattenSplit(words: seq<string>, j: nat)
    requires j < |words|
    ensures exists rest :: Flatten(words) == Flatten(words[..j]) + words[j] + ['\0'] + rest
    decreases |words|
  {
    var front := words[..|words| - 1];
    if j == |words| - 1 {
      assert Flatten(words) == Flatten(words[..j]) + words[j] + ['\0'] + "";
    } else {
      FlattenSplit(front, j);
      assert front[..j] == words[..j];
      var rest :| Flatten(front) == Flatten(front[..j]) + front[j] + ['\0'] + rest;
      var last := words[|words| - 1];
      assert Flatten(words) == Flatten(words[..j]) + words[j] + ['\0'] + (rest + last + ['\0']);
    }
  }

  lemma {:induction false} StringAtIs(a: string, w: string, b: string, k: nat)
    requires NoNul(w) && k <= |w|
    ensures StringAt(a + w + ['\0'] + b, |a| + k) == w[k..]
    decreases |w| - k
  {
    var all := a + w + ['\0'] + b;
    if k == |w| {
      assert all[|a| + k] == '\0';
    } else {
      assert all[|a| + k] == w[k];
      StringAtIs(a, w, b, k + 1);
      assert w[k..] == [w[k]] + w[k + 1..];
    }
  }

  /** Each word starts one past the NUL of the word before. */
  lemma NextOffset(words: seq<string>, j: nat)
    requires j < |words|
    ensures Offset(words, j + 1) == Offset(words, j) + |words[j]| + 1
  {
    assert words[..j + 1] == words[..j] + [words[j]];
    FlattenAppend(words[..j], words[j]);
  }

  predicate Clean(words: seq<string>) {
    forall j :: 0 <= j < |words| ==> NoNul(words[j])
  }

  lemma {:induction false} ParseIsClean(st: ParseState, line: string, argcMax: int, bufLen: int)
    requires NoNul(line) && Clean(st.words) && NoNul(st.word)
    ensures Clean(AllWords(ParseFrom(st, line, argcMax, bufLen)))
    decreases |line|
  {
    hide Split, Full;
    if line != "" {
      ParseIsClean(Consume(st, line[0]), line[1..], argcMax, bufLen);
    }
  }

  /** The arrays while `words` are ended and `word` is being written: everything written so far, and
      nothing changed past it. */
  ghost predicate Written(
      words: seq<string>, word: string, argv: seq<int>, buf: string, argv0: seq<int>, buf0: string)
  {
    var n := |Flatten(words)| + |word|;
    && |words| < |argv| == |argv0| && n <= |buf| == |buf0|
    && buf[..n] == Flatten(words) + word && buf[n..] == buf0[n..]
    && (forall j :: 0 <= j <= |words| ==> argv[j] == Offset(words, j))
    && argv[|words| + 1..] == argv0[|words| + 1..]
  }

  /** Ending a word: a NUL after it, and the next entry of argv after that. */
  lemma EndsWord(words: seq<string>, word: string, argv: seq<int>, buf: string, argv0: seq<int>, buf0: string)
    requires Written(words, word, argv, buf, argv0, buf0)
    requires |words| + 1 < |argv| && |Flatten(words)| + |word| < |buf|
    ensures var n := |Flatten(words)| + |word|;
            Written(words + [word], "", argv[|words| + 1 := n + 1], buf[n := '\0'], argv0, buf0)
  {
    hide Flatten;
    var n := |Flatten(words)| + |word|;
    var words1, argv1, buf1 := words + [word], argv[|words| + 1 := n + 1], buf[n := '\0'];
    FlattenAppend(words, word);
    assert buf1[..n + 1] == buf[..n] + ['\0'] && buf1[n + 1..] == buf[n..][1..];
    assert buf0[n + 1..] == buf0[n..][1..];
    assert argv1[|words1| + 1..] == argv[|words| + 1..][1..];
    assert argv0[|words1| + 1..] == argv0[|words| + 1..][1..];
    forall j | 0 <= j <= |words1| ensures argv1[j] == Offset(words1, j) {
      if j <= |words| {
        assert words1[..j] == words[..j];
      } else {
        assert words1[..j] == words1;
      }
    }
  }

  lemma SavesChar(
      words: seq<string>, word: string, c: char, argv: seq<int>, buf: string, argv0: seq<int>, buf0: string)
    requires Written(words, word, argv, buf, argv0, buf0)
    requires |Flatten(words)| + |word| < |buf|
    ensures Written(words, word + [c], argv, buf[|Flatten(words)| + |word| := c], argv0, buf0)
  {
    hide Flatten, Offset;
    var n := |Flatten(words)| + |word|;
    var buf1 := buf[n := c];
    assert buf1[..n + 1] == buf[..n] + [c] && buf1[n + 1..] == buf[n..][1..];
    assert buf0[n + 1..] == buf0[n..][1..];
  }

  /** The arrays when parse returns `words`. */
  ghost predicate Returned(words: seq<string>, argv: seq<int>, buf: string, argv0: seq<int>, buf0: string) {
    var n := |Flatten(words)|;
    && |words| < |argv| == |argv0| && n <= |buf| == |buf0|
    && buf[..n] == Flatten(words) && buf[n..] == buf0[n..]
    && (forall j :: 0 <= j < |words| ==> argv[j] == Offset(words, j))
    && argv[|words|] == NULL && argv[|words| + 1..] == argv0[|words| + 1..]
  }

  /** A last word takes a NUL; NULL takes the entry after the last word. */
  lemma Returns(words: seq<string>, word: string, argv: seq<int>, buf: string, argv0: seq<int>, buf0: string)
    requires Written(words, word, argv, buf, argv0, buf0)
    requires word != "" ==> |words| + 1 < |argv| && |Flatten(words)| + |word| < |buf|
    ensures word == "" ==> Returned(words, argv[|words| := NULL], buf, argv0, buf0)
    ensures word != "" ==>
      Returned(words + [word], argv[|words| + 1 := NULL], buf[|Flatten(words)| + |word| := '\0'], argv0, buf0)
  {
    hide Flatten, Offset;
    var n := |Flatten(words)| + |word|;
    if word != "" {
      EndsWord(words, word, argv, buf, argv0, buf0);
      assert argv[|words| + 1 := n + 1][|words| + 1 := NULL] == argv[|words| + 1 := NULL];
      Closes(words + [word], argv[|words| + 1 := n + 1], buf[n := '\0'], argv0, buf0);
    } else {
      Closes(words, argv, buf, argv0, buf0);
    }
  }

  lemma Closes(words: seq<string>, argv: seq<int>, buf: string, argv0: seq<int>, buf0: string)
    requires Written(words, "", argv, buf, argv0, buf0)
    ensures Returned(words, argv[|words| := NULL], buf, argv0, buf0)
  {
    hide Flatten, Offset;
    assert Flatten(words) + "" == Flatten(words);
    assert argv[|words| := NULL][|words| + 1..] == argv[|words| + 1..];
  }

  lemma PointsToWord(words: seq<string>, buf: string, j: nat)
    requires |Flatten(words)| <= |buf| && buf[..|Flatten(words)|] == Flatten(words)
    requires j < |words| && NoNul(words[j])
    ensures StringAt(buf, Offset(words, j)) == words[j]
  {
    hide Flatten, StringAt, NoNul;
    FlattenSplit(words, j);
    var rest :| Flatten(words) == Flatten(words[..j]) + words[j] + ['\0'] + rest;
    var tail := rest + buf[|Flatten(words)|..];
    assert buf == Flatten(words[..j]) + words[j] + ['\0'] + tail;
    StringAtIs(Flatten(words[..j]), words[j], tail, 0);
  }

  /** Each entry of argv points to its word, as a C string. */
  lemma PointsToWords(
      line: string, argcMax: int, bufLen: int, argv: seq<int>, buf: string, argv0: seq<int>, buf0: string)
    requires Returned(ParseWords(line, argcMax, bufLen), argv, buf, argv0, buf0)
    ensures NoNul(line) ==> PointTo(argv, buf, ParseWords(line, argcMax, bufLen))
  {
    hide Flatten, StringAt, ParseFrom, AllWords;
    if NoNul(line) {
      var words := ParseWords(line, argcMax, bufLen);
      ParseIsClean(START, line, argcMax, bufLen);
      forall j | 0 <= j < |words| ensures StringAt(buf, argv[j]) == words[j] {
        PointsToWord(words, buf, j);
      }
    }
  }

  /** The first entries of argv are the starts of the C strings `words`. */
  predicate PointTo(argv: seq<int>, buf: string, words: seq<string>) {
    |words| <= |argv| && forall j :: 0 <= j < |words| ==> 0 <= argv[j] && StringAt(buf, argv[j]) == words[j]
  }

  lemma Starts(argv0: seq<int>, buf0: string)
    requires |argv0| > 0
    ensures Written([], "", argv0[0 := 0], buf0, argv0, buf0) && Flatten([]) == ""
  {
  }

  /** The current entry of argv is where the word in progress starts. */
  lemma WrittenLast(words: seq<string>, word: string, argv: seq<int>, buf: string, argv0: seq<int>, buf0: string)
    requires Written(words, word, argv, buf, argv0, buf0)
    ensures |words| < |argv| && argv[|words|] == |Flatten(words)|
  {
    assert words[..|words|] == words;
  }

  /** One turn of the loop: what split decided, and whether the loop goes on. */
  lemma ParseTurn(st: ParseState, line: string, p: nat, argcMax: int, bufLen: int)
    requires p < |line|
    ensures var d := Split(st.q, st.prev, line[p]); var st1 := Consume(st, line[p]);
            && st1.words == (if d.split then st.words + [st.word] else st.words)
            && st1.word == (if d.split then "" else st.word) + (if d.save then [line[p]] else "")
            && st1.q == d.q && st1.prev == line[p]
            && |Flatten(st1.words)| + |st1.word|
                 == |Flatten(st.words)| + |st.word| + (if d.split then 1 else 0) + (if d.save then 1 else 0)
            && (st.prev == '\0' ==> !d.split)
            && ParseFrom(st, line[p..], argcMax, bufLen)
                 == if |Flatten(st1.words)| + |st1.word| > bufLen - 2 || |st1.words| >= argcMax - 1 then st1
                    else ParseFrom(st1, line[p + 1..], argcMax, bufLen)
    ensures var st1, end := Consume(st, line[p]), ParseFrom(st, line[p..], argcMax, bufLen);
            |Flatten(st1.words)| + |st1.word| <= Ptr(end) && |st1.words| <= |end.words|
  {
    hide Split, Flatten;
    FirstNeverSplits(st.q, line[p]);
    FlattenAppend(st.words, st.word);
    assert line[p..][0] == line[p] && line[p..][1..] == line[p + 1..];
    ParseGrows(Consume(st, line[p]), line[p + 1..], argcMax, bufLen);
  }

  lemma {:induction false} ParseGrows(st: ParseState, line: string, argcMax: int, bufLen: int)
    ensures var end := ParseFrom(st, line, argcMax, bufLen);
            Ptr(st) <= Ptr(end) && |st.words| <= |end.words|
    decreases |line|
  {
    hide Split, Full, Ptr, Consume;
    if line != "" {
      ConsumeWrites(st, line[0]);
      ParseGrows(Consume(st, line[0]), line[1..], argcMax, bufLen);
    }
  }

  /** The caller's array has an entry for every word and the null entry, and its buffer a byte for every
      character and NUL. */
  predicate HasRoom(line: string, argcMax: int, bufLen: int, slots: nat, bytes: nat) {
    |ParseWords(line, argcMax, bufLen)| < slots && |Flatten(ParseWords(line, argcMax, bufLen))| <= bytes
  }

  /** Arrays of the sizes named are large enough unless a character takes the last slot or byte, and
      one more entry or byte is then enough. */
  lemma RoomUnlessTaken(line: string, argcMax: int, bufLen: int, slots: nat, bytes: nat)
    requires argcMax >= 1 && bufLen >= 1 && slots >= argcMax && bytes >= bufLen
    ensures HasRoom(line, argcMax, bufLen, slots, bytes) <==>
              && (slots == argcMax ==> forall m :: 0 <= m < |line| ==> !TakesLastSlot(line, m, argcMax, bufLen))
              && (bytes == bufLen ==> forall m :: 0 <= m < |line| ==> !TakesLastByte(line, m, argcMax, bufLen))
  {
    hide ParseWords, Flatten, TakesLastSlot, TakesLastByte;
    CallerSizes(line, argcMax, bufLen);
    ParseFitsBuffers(line, argcMax, bufLen);
  }

  /** Where the loop leaves off there is room for one more NUL, and the words are what parse returns. */
  lemma ParseEnds(line: string, argcMax: int, bufLen: int)
    requires argcMax >= 1 && bufLen >= 1
    ensures var st, words := ParseFrom(START, line, argcMax, bufLen), ParseWords(line, argcMax, bufLen);
            && |Flatten(st.words)| + |st.word| <= bufLen && |st.words| <= argcMax - 1
            && words == (if st.word == "" then st.words else st.words + [st.word])
            && |words| <= argcMax && |Flatten(words)| <= bufLen + 1
  {
    ParseStaysInside(START, line, argcMax, bufLen);
    ParseFitsBuffers(line, argcMax, bufLen);
  }

  lemma RoomToEnd(line: string, argcMax: int, bufLen: int, slots: nat, bytes: nat)
    requires HasRoom(line, argcMax, bufLen, slots, bytes)
    ensures var end := ParseFrom(START, line, argcMax, bufLen);
            |end.words| < slots && Ptr(end) <= bytes
  {
    var end := ParseFrom(START, line, argcMax, bufLen);
    FlattenAppend(end.words, end.word);
  }

  /** What is left to do after the loop: one more NUL if a word is in progress, and NULL in argv. */
  lemma Finishes(
      line: string, argcMax: int, bufLen: int, argv: seq<int>, buf: string, argv0: seq<int>, buf0: string)
    requires argcMax >= 1 && bufLen >= 1 && HasRoom(line, argcMax, bufLen, |argv|, |buf|)
    requires var st := ParseFrom(START, line, argcMax, bufLen);
             Written(st.words, st.word, argv, buf, argv0, buf0)
    ensures var st := ParseFrom(START, line, argcMax, bufLen);
            var i, n := |st.words|, |Flatten(st.words)| + |st.word|;
            && i < |argv| && n <= |buf| && argv[i] == |Flatten(st.words)|
            && (st.word != "" ==> i + 1 < |argv| && n < |buf|)
            && (st.word == "" ==> Done(line, argcMax, bufLen, i, argv[i := NULL], buf, argv0, buf0))
            && (st.word != "" ==>
                  Done(line, argcMax, bufLen, i + 1, argv[i + 1 := NULL], buf[n := '\0'], argv0, buf0))
  {
    hide Written, Returned, Flatten, PointTo, NoNul;
    var st := ParseFrom(START, line, argcMax, bufLen);
    var i, n := |st.words|, |Flatten(st.words)| + |st.word|;
    ParseEnds(line, argcMax, bufLen);
    FlattenAppend(st.words, st.word);
    WrittenLast(st.words, st.word, argv, buf, argv0, buf0);
    Returns(st.words, st.word, argv, buf, argv0, buf0);
    if st.word == "" {
      PointsToWords(line, argcMax, bufLen, argv[i := NULL], buf, argv0, buf0);
    } else {
      PointsToWords(line, argcMax, bufLen, argv[i + 1 := NULL], buf[n := '\0'], argv0, buf0);
    }
  }

  /** All that parse promises. */
  ghost predicate Done(
      line: string, argcMax: int, bufLen: int,
      count: int, argv: seq<int>, buf: string, argv0: seq<int>, buf0: string)
  {
    var words := ParseWords(line, argcMax, bufLen);
    && count == |words| <= argcMax && |Flatten(words)| <= bufLen + 1
    && Returned(words, argv, buf, argv0, buf0)
    && (NoNul(line) ==> PointTo(argv, buf, words))
  }

  lemma ParseFromNothing(st: ParseState, argcMax: int, bufLen: int)
    ensures ParseFrom(st, "", argcMax, bufLen) == st
  {
  }

  class Tokenizer {
    var in2quote: bool
    var in1quote: bool

    function Flags(): Quotes
      reads this
    {
      Quotes(in2quote, in1quote)
    }

    constructor ()
      ensures Flags() == Quotes(false, false)
    {
      in2quote, in1quote := false, false;
    }

    /** split */
    method Split(c1: char, c2: char) returns (split: bool, save: bool)
      modifies this
      ensures Decision(split, save, Flags()) == ShellTokens.Split(old(Flags()), c1, c2)
    {
      if c1 == '\0' {
        return false, !IsSpace(c2);
      }
      if in2quote {
        if c2 == '"' {
          in2quote := false;
          return true, false;
        } else {
          return false, true;
        }
      } else if in1quote {
        if c2 == '\'' {
          in1quote := false;
          return true, false;
        } else {
          return false, true;
        }
      }
      if c2 == '"' {
        in2quote := true;
        return !IsSpace(c1), false;
      }
      if c2 == '\'' {
        in1quote := true;
        return !IsSpace(c1), false;
      }
      if c2 == '|' {
        return !IsSpace(c1), true;
      }
      if c1 == '|' {
        return true, !IsSpace(c2);
      }
      if IsSpace(c2) {
        return !(IsSpace(c1) || IsQuote(c1)), false;
      }
      if c2 == '>' || c2 == '<' {
        return !IsSpace(c1), true;
      }
      if c1 == '>' || c1 == '<' {
        return true, !IsSpace(c2);
      }
      return false, true;
    }

    /** The loop of parse: every character up to the end of the line, the array or the buffer. */
    method ParseChars(line: string, argcMax: int, argv: array<int>, buf: array<char>, bufLen: int)
        returns (i: nat, ptr: nat)
      requires HasRoom(line, argcMax, bufLen, argv.Length, buf.Length)
      modifies this, argv, buf
      ensures var st := ParseFrom(START, line, argcMax, bufLen);
              && i == |st.words| && ptr == |Flatten(st.words)| + |st.word|
              && Written(st.words, st.word, argv[..], buf[..], old(argv[..]), old(buf[..]))
    {
      hide ShellTokens.Split, IsSpace, Ptr, Full, ParseFrom, Consume, Written, Flatten, HasRoom;
      RoomToEnd(line, argcMax, bufLen, argv.Length, buf.Length);
      ghost var end := ParseFrom(START, line, argcMax, bufLen);
      in1quote, in2quote := false, false;
      i, ptr := 0, 0;
      var prev := '\0';
      ghost var st, argv0, buf0 := START, argv[..], buf[..];
      ghost var A, B := argv0[0 := 0], buf0;
      argv[i] := ptr;
      Starts(argv0, buf0);
      assert argv[..] == A;
      var p := 0;
      assert line[0..] == line;
      while p < |line|
        invariant 0 <= p <= |line|
        invariant ParseFrom(st, line[p..], argcMax, bufLen) == end
        invariant st.q == Flags() && st.prev == prev
        invariant i == |st.words| && ptr == |Flatten(st.words)| + |st.word|
        invariant argv[..] == A && buf[..] == B && Written(st.words, st.word, A, B, argv0, buf0)
      {
        ParseTurn(st, line, p, argcMax, bufLen);
        var split, save := Split(prev, line[p]);
        ghost var st1 := Consume(st, line[p]);
        ghost var words, word := st.words, st.word;
        if split {
          EndsWord(words, word, A, B, argv0, buf0);
          words, word := words + [word], "";
          buf[ptr] := '\0';
          ptr := ptr + 1;
          i := i + 1;
          argv[i] := ptr;
          A, B := A[i := ptr], B[ptr - 1 := '\0'];
          assert argv[..] == A && buf[..] == B;
        }
        if save {
          SavesChar(words, word, line[p], A, B, argv0, buf0);
          word := word + [line[p]];
          buf[ptr] := line[p];
          B := B[ptr := line[p]];
          assert buf[..] == B;
          ptr := ptr + 1;
        }
        assert words == st1.words && word == st1.word;
        prev := line[p];
        st := st1;
        if ptr > bufLen - 2 || i >= argcMax - 1 {
          break;
        }
        p := p + 1;
      }
      assert p == |line| ==> line[p..] == "";
      ParseFromNothing(st, argcMax, bufLen);
    }

    /** parse.  It needs one entry of argv more than argc_max, or one byte more than buf_len, only for a
        line with a character that takes the last. */
    method Parse(line: string, argcMax: int, argv: array<int>, buf: array<char>, bufLen: int)
        returns (count: int)
      requires argcMax >= 1 && argv.Length >= argcMax
      requires bufLen >= 1 && buf.Length >= bufLen
      requires argv.Length == argcMax ==> forall m :: 0 <= m < |line| ==> !TakesLastSlot(line, m, argcMax, bufLen)
      requires buf.Length == bufLen ==> forall m :: 0 <= m < |line| ==> !TakesLastByte(line, m, argcMax, bufLen)
      modifies this, argv, buf
      ensures Done(line, argcMax, bufLen, count, argv[..], buf[..], old(argv[..]), old(buf[..]))
    {
      hide ParseFrom, ParseWords, Written, Flatten, Done, HasRoom, TakesLastSlot, TakesLastByte;
      RoomUnlessTaken(line, argcMax, bufLen, argv.Length, buf.Length);
      ghost var argv0, buf0 := argv[..], buf[..];
      var i, ptr := ParseChars(line, argcMax, argv, buf, bufLen);
      ghost var A, B := argv[..], buf[..];
      Finishes(line, argcMax, bufLen, A, B, argv0, buf0);
      if ptr != argv[i] {
        buf[ptr] := '\0';
        B := B[ptr := '\0'];
        assert buf[..] == B;
        ptr := ptr + 1;
        i := i + 1;
      }
      argv[i] := NULL;
      assert argv[..] == A[i := NULL];
      return i;
    }
  }
}
