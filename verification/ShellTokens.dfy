/** The shell's tokenizer, driven by the previous and the current character, and the simple
    specification it meets. */
module ShellTokens {

  predicate IsSpace(c: char) {
    c == ' ' || ('\t' <= c && c <= '\r')
  }

  predicate IsQuote(c: char) {
    c == '"' || c == '\''
  }

  predicate IsOp(c: char) {
    c == '|' || c == '<' || c == '>'
  }

  /** in_2quote and in_1quote */
  datatype Quotes = Quotes(in2: bool, in1: bool)

  /** The value of split: whether to start a new word, whether to keep the character, and the quote
      flags afterwards. */
  datatype Decision = Decision(split: bool, save: bool, q: Quotes)

  /** split.  `c1` is NUL for the first character of a line. */
  function Split(q: Quotes, c1: char, c2: char): Decision {
    if c1 == '\0' then Decision(false, !IsSpace(c2), q)
    else if q.in2 then
      if c2 == '"' then Decision(true, false, q.(in2 := false)) else Decision(false, true, q)
    else if q.in1 then
      if c2 == '\'' then Decision(true, false, q.(in1 := false)) else Decision(false, true, q)
    else if c2 == '"' then Decision(!IsSpace(c1), false, q.(in2 := true))
    else if c2 == '\'' then Decision(!IsSpace(c1), false, q.(in1 := true))
    else if c2 == '|' then Decision(!IsSpace(c1), true, q)
    else if c1 == '|' then Decision(true, !IsSpace(c2), q)
    else if IsSpace(c2) then Decision(!(IsSpace(c1) || IsQuote(c1)), false, q)
    else if c2 == '>' || c2 == '<' then Decision(!IsSpace(c1), true, q)
    else if c1 == '>' || c1 == '<' then Decision(true, !IsSpace(c2), q)
    else Decision(false, true, q)
  }

  /** Where parse stands: the words ended so far, the one being written, the quote flags and the
      previous character. */
  datatype ParseState = ParseState(words: seq<string>, word: string, q: Quotes, prev: char)

  const START := ParseState([], "", Quotes(false, false), '\0')

  function Consume(st: ParseState, c: char): ParseState {
    var d := Split(st.q, st.prev, c);
    var words := if d.split then st.words + [st.word] else st.words;
    var word := if d.split then "" else st.word;
    ParseState(words, if d.save then word + [c] else word, d.q, c)
  }

  /** Words as they lie in the buffer, each followed by a NUL. */
  function Flatten(words: seq<string>): string {
    if words == [] then "" else Flatten(words[..|words| - 1]) + words[|words| - 1] + ['\0']
  }

  /** The two tests that end the loop early. */
  predicate Full(st: ParseState, argcMax: int, bufLen: int) {
    |Flatten(st.words)| + |st.word| > bufLen - 2 || |st.words| >= argcMax - 1
  }

  function ParseFrom(st: ParseState, line: string, argcMax: int, bufLen: int): ParseState
    decreases |line|
  {
    if line == "" then st
    else
      var st1 := Consume(st, line[0]);
      if Full(st1, argcMax, bufLen) then st1 else ParseFrom(st1, line[1..], argcMax, bufLen)
  }

  /** A word in progress counts unless it is empty. */
  function AllWords(st: ParseState): seq<string> {
    if st.word == "" then st.words else st.words + [st.word]
  }

  /** The words parse returns. */
  function ParseWords(line: string, argcMax: int, bufLen: int): seq<string> {
    AllWords(ParseFrom(START, line, argcMax, bufLen))
  }

  // ---------------------------------------------------------------------------------------
  // What is kept of a line.

  function Concat(words: seq<string>): string {
    if words == [] then "" else Concat(words[..|words| - 1]) + words[|words| - 1]
  }

  /** How many characters the loop looks at. */
  function Consumed(st: ParseState, line: string, argcMax: int, bufLen: int): (n: nat)
    ensures n <= |line|
    decreases |line|
  {
    if line == "" then 0
    else
      var st1 := Consume(st, line[0]);
      if Full(st1, argcMax, bufLen) then 1 else 1 + Consumed(st1, line[1..], argcMax, bufLen)
  }

  /** The characters of a line that split marks SAVE. */
  function Saved(q: Quotes, prev: char, line: string): string
    decreases |line|
  {
    if line == "" then ""
    else
      var d := Split(q, prev, line[0]);
      (if d.save then [line[0]] else "") + Saved(d.q, line[0], line[1..])
  }

  lemma ConcatAppend(words: seq<string>, w: string)
    ensures Concat(words + [w]) == Concat(words) + w
  {
    assert (words + [w])[..|words|] == words;
  }

  function Text(st: ParseState): string {
    Concat(st.words) + st.word
  }

  lemma ConsumeSaves(st: ParseState, c: char)
    ensures var st1 := Consume(st, c); var d := Split(st.q, st.prev, c);
            Text(st1) == Text(st) + (if d.save then [c] else "") && st1.q == d.q && st1.prev == c
  {
    hide Split, Concat;
    ConcatAppend(st.words, st.word);
    var d := Split(st.q, st.prev, c);
    if d.split {
      assert Text(Consume(st, c)) == Concat(st.words) + st.word + (if d.save then [c] else "");
    }
  }

  lemma {:induction false} SavedFrom(st: ParseState, line: string, argcMax: int, bufLen: int)
    ensures Text(ParseFrom(st, line, argcMax, bufLen))
         == Text(st) + Saved(st.q, st.prev, line[..Consumed(st, line, argcMax, bufLen)])
    decreases |line|
  {
    hide Split, Full, Text, Consume;
    if line != "" {
      var st1 := Consume(st, line[0]);
      var n := Consumed(st, line, argcMax, bufLen);
      ConsumeSaves(st, line[0]);
      assert line[..n][0] == line[0] && line[..n][1..] == line[1..][..n - 1];
      if !Full(st1, argcMax, bufLen) {
        SavedFrom(st1, line[1..], argcMax, bufLen);
      } else {
        assert line[..n][1..] == "";
      }
    }
  }

  /** Nothing is lost, added or reordered: the words put together are the characters looked at that
      are marked SAVE. */
  lemma WordsAreSaved(line: string, argcMax: int, bufLen: int)
    ensures Concat(ParseWords(line, argcMax, bufLen))
         == Saved(START.q, '\0', line[..Consumed(START, line, argcMax, bufLen)])
  {
    hide Split, Full;
    var st := ParseFrom(START, line, argcMax, bufLen);
    SavedFrom(START, line, argcMax, bufLen);
    ConcatAppend(st.words, st.word);
    assert Text(START) == "" && Concat(AllWords(st)) == Text(st);
  }

  // ---------------------------------------------------------------------------------------
  // Limits.

  lemma FlattenAppend(words: seq<string>, w: string)
    ensures Flatten(words + [w]) == Flatten(words) + w + ['\0']
  {
    assert (words + [w])[..|words|] == words;
  }

  predicate Roomy(st: ParseState, argcMax: int, bufLen: int) {
    |Flatten(st.words)| + |st.word| <= bufLen && |st.words| <= argcMax - 1
  }

  lemma ConsumeGrows(st: ParseState, c: char)
    ensures var st1 := Consume(st, c);
            && |Flatten(st1.words)| + |st1.word| <= |Flatten(st.words)| + |st.word| + 2
            && |st1.words| <= |st.words| + 1
            && (st.prev == '\0' ==>
                  st1.words == st.words && |st1.word| <= |st.word| + 1)
  {
    FlattenAppend(st.words, st.word);
  }

  lemma {:induction false} ParseStaysInside(st: ParseState, line: string, argcMax: int, bufLen: int)
    requires argcMax >= 1 && bufLen >= 1
    requires !Full(st, argcMax, bufLen) || st == START
    ensures Roomy(ParseFrom(st, line, argcMax, bufLen), argcMax, bufLen)
    decreases |line|
  {
    hide Split;
    if line != "" {
      ConsumeGrows(st, line[0]);
      var st1 := Consume(st, line[0]);
      if !Full(st1, argcMax, bufLen) {
        ParseStaysInside(st1, line[1..], argcMax, bufLen);
      }
    }
  }

  /** At most argc_max words come back, and with their NULs they take at most buf_len + 1 bytes. */
  lemma ParseFitsBuffers(line: string, argcMax: int, bufLen: int)
    requires argcMax >= 1 && bufLen >= 1
    ensures var words := ParseWords(line, argcMax, bufLen);
            |words| <= argcMax && |Flatten(words)| <= bufLen + 1
  {
    var st := ParseFrom(START, line, argcMax, bufLen);
    ParseStaysInside(START, line, argcMax, bufLen);
    FlattenAppend(st.words, st.word);
  }

  // ---------------------------------------------------------------------------------------
  // The last slot and the last byte.

  /** Where parse would stand after a text if nothing stopped it. */
  function Reads(text: string): ParseState {
    if text == "" then START else Consume(Reads(text[..|text| - 1]), text[|text| - 1])
  }

  /** How far ptr has come. */
  function Ptr(st: ParseState): nat {
    |Flatten(st.words)| + |st.word|
  }

  lemma ReadsOneMore(line: string, m: nat)
    requires m < |line|
    ensures Reads(line[..m + 1]) == Consume(Reads(line[..m]), line[m])
  {
    assert line[..m + 1][..m] == line[..m];
  }

  /** ptr and i never go back. */
  lemma {:induction false} ReadsGrow(line: string, i: nat, j: nat)
    requires i <= j <= |line|
    ensures Ptr(Reads(line[..i])) <= Ptr(Reads(line[..j]))
    ensures |Reads(line[..i]).words| <= |Reads(line[..j]).words|
    decreases j - i
  {
    hide Split;
    if i < j {
      ReadsGrow(line, i, j - 1);
      ReadsOneMore(line, j - 1);
      ConsumeWrites(Reads(line[..j - 1]), line[j - 1]);
    }
  }

  /** What one character adds to ptr and to i. */
  lemma ConsumeWrites(st: ParseState, c: char)
    ensures var st1 := Consume(st, c); var d := Split(st.q, st.prev, c);
            && Ptr(st1) == Ptr(st) + (if d.split then 1 else 0) + (if d.save then 1 else 0)
            && |st1.words| == |st.words| + (if d.split then 1 else 0)
            && (d.split ==> (st1.word == "" <==> !d.save))
            && st1.prev == c
  {
    FlattenAppend(st.words, st.word);
  }

  lemma FirstNeverSplits(q: Quotes, c: char)
    ensures !Split(q, '\0', c).split
  {
  }

  /** The part of the line that parse reads is the shortest that fills the array or the buffer, and
      what it has then is what that part amounts to. */
  lemma {:induction false} ParseIsReads(line: string, m: nat, argcMax: int, bufLen: int)
    requires m <= |line|
    ensures var n := m + Consumed(Reads(line[..m]), line[m..], argcMax, bufLen);
            && n <= |line|
            && ParseFrom(Reads(line[..m]), line[m..], argcMax, bufLen) == Reads(line[..n])
            && (forall k :: m < k < n ==> !Full(Reads(line[..k]), argcMax, bufLen))
            && (n == |line| || (m < n && Full(Reads(line[..n]), argcMax, bufLen)))
    decreases |line| - m
  {
    hide Split, Full, Reads;
    if m < |line| {
      ReadsOneMore(line, m);
      assert line[m..][0] == line[m] && line[m..][1..] == line[m + 1..];
      if !Full(Reads(line[..m + 1]), argcMax, bufLen) {
        ParseIsReads(line, m + 1, argcMax, bufLen);
      }
    }
  }

  /** Character `m` is saved as the first of a word; it ends the word before it, if there is one. */
  predicate StartsWord(line: string, m: nat)
    requires m < |line|
  {
    var st := Reads(line[..m]);
    Split(st.q, st.prev, line[m]).save && (m > 0 ==> Split(st.q, st.prev, line[m]).split)
  }

  /** Character `m` starts the argc_max-th word, and the buffer has not stopped the loop before. */
  predicate TakesLastSlot(line: string, m: nat, argcMax: int, bufLen: int)
    requires m < |line|
  {
    var st := Reads(line[..m]);
    StartsWord(line, m)
    && (if m == 0 then argcMax == 1 else |st.words| == argcMax - 2 && Ptr(st) <= bufLen - 2)
  }

  /** Character `m` starts a word in the last byte of the buffer, so that its NUL falls behind it, and
      the array has not stopped the loop before. */
  predicate TakesLastByte(line: string, m: nat, argcMax: int, bufLen: int)
    requires m < |line|
  {
    var st := Reads(line[..m]);
    StartsWord(line, m)
    && (if m == 0 then bufLen == 1 else Ptr(st) == bufLen - 2 && |st.words| <= argcMax - 2)
  }

  lemma AllWordsSizes(st: ParseState)
    ensures var last := if st.word == "" then 0 else 1;
            |AllWords(st)| == |st.words| + last && |Flatten(AllWords(st))| == Ptr(st) + last
  {
    FlattenAppend(st.words, st.word);
  }

  lemma FullIs(st: ParseState, argcMax: int, bufLen: int)
    ensures Full(st, argcMax, bufLen) <==> Ptr(st) > bufLen - 2 || |st.words| >= argcMax - 1
  {
  }

  /** The text `line[..n]` at which the loop stops, against the words and bytes it then returns. */
  lemma StopsAfter(line: string, n: nat, argcMax: int, bufLen: int)
    requires 0 < n <= |line| && argcMax >= 1 && bufLen >= 1
    requires n == 1 || !Full(Reads(line[..n - 1]), argcMax, bufLen)
    ensures var words := AllWords(Reads(line[..n]));
            && (|words| >= argcMax <==> TakesLastSlot(line, n - 1, argcMax, bufLen))
            && (|Flatten(words)| > bufLen <==> TakesLastByte(line, n - 1, argcMax, bufLen))
    ensures TakesLastSlot(line, n - 1, argcMax, bufLen) || TakesLastByte(line, n - 1, argcMax, bufLen) ==>
              Full(Reads(line[..n]), argcMax, bufLen)
  {
    hide Split, Reads, Flatten, Ptr, AllWords, Full, Consume;
    var st, st1, c := Reads(line[..n - 1]), Reads(line[..n]), line[n - 1];
    ReadsOneMore(line, n - 1);
    ConsumeWrites(st, c);
    AllWordsSizes(st1);
    FullIs(st, argcMax, bufLen);
    FullIs(st1, argcMax, bufLen);
    if n == 1 {
      assert line[..0] == "";
      ReadsNothing();
      FirstNeverSplits(st.q, c);
      FirstWord(c);
    }
  }

  lemma FirstWord(c: char)
    ensures var st := Consume(START, c);
            st.word == "" <==> !Split(START.q, '\0', c).save
  {
  }

  lemma ReadsNothing()
    ensures Reads("") == START && Ptr(START) == 0 && AllWords(START) == [] && Flatten([]) == ""
  {
  }

  /** After the loop has stopped no character takes a last slot or byte. */
  lemma NothingAfter(line: string, n: nat, m: nat, argcMax: int, bufLen: int)
    requires 0 < n <= m < |line| && Full(Reads(line[..n]), argcMax, bufLen)
    ensures !TakesLastSlot(line, m, argcMax, bufLen) && !TakesLastByte(line, m, argcMax, bufLen)
  {
    hide Reads, Split, StartsWord;
    ReadsGrow(line, n, m);
  }

  /** Where the loop stops, and what it has then. */
  lemma StopPlace(line: string, argcMax: int, bufLen: int) returns (n: nat)
    requires argcMax >= 1 && bufLen >= 1
    ensures n == Consumed(START, line, argcMax, bufLen) && (n == 0 <==> line == "")
    ensures ParseWords(line, argcMax, bufLen) == AllWords(Reads(line[..n]))
    ensures n < |line| ==> Full(Reads(line[..n]), argcMax, bufLen)
    ensures forall k :: 0 < k < n ==> !Full(Reads(line[..k]), argcMax, bufLen)
    ensures var words := ParseWords(line, argcMax, bufLen);
            n > 0 ==>
              && (|words| >= argcMax <==> TakesLastSlot(line, n - 1, argcMax, bufLen))
              && (|Flatten(words)| > bufLen <==> TakesLastByte(line, n - 1, argcMax, bufLen))
  {
    hide Reads, Full, TakesLastSlot, TakesLastByte, ParseFrom, Consumed, Flatten, AllWords, Ptr;
    n := Consumed(START, line, argcMax, bufLen);
    ReadsNothing();
    assert line[..0] == "" && line[0..] == line;
    ParseIsReads(line, 0, argcMax, bufLen);
    if n > 0 {
      StopsAfter(line, n, argcMax, bufLen);
    }
  }

  /** argc_max entries of argv are too few exactly when some character starts the argc_max-th word;
      buf_len bytes are too few exactly when some character starts a word in the last of them. */
  lemma CallerSizes(line: string, argcMax: int, bufLen: int)
    requires argcMax >= 1 && bufLen >= 1
    ensures var words := ParseWords(line, argcMax, bufLen);
            && (|words| >= argcMax <==> exists m :: 0 <= m < |line| && TakesLastSlot(line, m, argcMax, bufLen))
            && (|Flatten(words)| > bufLen <==> exists m :: 0 <= m < |line| && TakesLastByte(line, m, argcMax, bufLen))
  {
    hide Reads, Full, TakesLastSlot, TakesLastByte, ParseWords, Consumed, Flatten, AllWords;
    var n := StopPlace(line, argcMax, bufLen);
    NothingRead(argcMax, bufLen);
    forall m | 0 <= m < |line| && m + 1 != n
      ensures !TakesLastSlot(line, m, argcMax, bufLen) && !TakesLastByte(line, m, argcMax, bufLen)
    {
      if m + 1 < n {
        StopsAfter(line, m + 1, argcMax, bufLen);
      } else {
        NothingAfter(line, n, m, argcMax, bufLen);
      }
    }
  }

  lemma NothingRead(argcMax: int, bufLen: int)
    ensures ParseWords("", argcMax, bufLen) == [] && Flatten([]) == ""
  {
  }
}
