/** How tokens become commands: a pure account of the list that is built, and a printer that inverts
    it. */
module ShellCommands {
  import opened ShellTokens
  import opened ShellWords
  import opened Wrappers

  /** What a command node carries.  `nextPipe` is 1 when `&&` ended the command and 0 otherwise. */
  datatype Cmd = Cmd(args: seq<string>, input: Option<string>, output: Option<string>, nextPipe: int, negate: int)

  const PIPE := "|"
  const LT := "<"
  const GT := ">"
  const AND := "&&"
  const NOT := "!"

  predicate IsSpecial(token: string) {
    token == PIPE || token == LT || token == GT || token == AND || token == NOT
  }

  /** How many arguments the tokens start with. */
  function ArgCount(tokens: seq<string>): (n: nat)
    ensures n <= |tokens|
    ensures forall k :: 0 <= k < n ==> !IsSpecial(tokens[k])
    ensures n < |tokens| ==> IsSpecial(tokens[n])
  {
    if tokens == [] || IsSpecial(tokens[0]) then 0 else 1 + ArgCount(tokens[1..])
  }

  /** The command after its redirections, and the tokens after its separator. */
  function Set(c: Cmd, tokens: seq<string>): (r: (Cmd, seq<string>))
    ensures |r.1| <= |tokens| && (tokens != [] && IsSpecial(tokens[0]) ==> |r.1| < |tokens|)
    ensures r.0.args == c.args
    decreases |tokens|
  {
    if tokens == [] || !IsSpecial(tokens[0]) then (c, tokens)
    else if tokens[0] == LT then
      if |tokens| > 1 then Set(c.(input := Some(tokens[1])), tokens[2..]) else (c, [])
    else if tokens[0] == GT then
      if |tokens| > 1 then Set(c.(output := Some(tokens[1])), tokens[2..]) else (c, [])
    else if tokens[0] == PIPE then (c.(nextPipe := 0), tokens[1..])
    else if tokens[0] == AND then (c.(nextPipe := 1), tokens[1..])
    else (c.(negate := 1), tokens[1..])
  }

  /** A node as createCommand leaves it, with its arguments. */
  function Fresh(args: seq<string>): Cmd {
    Cmd(args, None, None, 0, 1)
  }

  /** The commands of the list that buildCommandList builds. */
  function Build(tokens: seq<string>): seq<Cmd>
    decreases |tokens|
  {
    if tokens == [] then []
    else
      var n := ArgCount(tokens);
      var (c, rest) := Set(Fresh(tokens[..n]), tokens[n..]);
      [c] + Build(rest)
  }

  // ---------------------------------------------------------------------------------------
  // The inverse.

  /** The nodes the builder can make. */
  predicate WellFormed(c: Cmd) {
    && (forall k :: 0 <= k < |c.args| ==> !IsSpecial(c.args[k]))
    && (c.nextPipe == 0 || c.nextPipe == 1) && c.negate == 1
  }

  predicate AllWellFormed(cmds: seq<Cmd>) {
    forall k :: 0 <= k < |cmds| ==> WellFormed(cmds[k])
  }

  function Redirect(op: string, file: Option<string>): seq<string> {
    match file
    case None => []
    case Some(f) => [op, f]
  }

  function Redirects(c: Cmd): seq<string> {
    Redirect(LT, c.input) + Redirect(GT, c.output)
  }

  /** A command's separator; the last command of a line needs one only to carry `&&`, or to be there
      at all. */
  function Separator(c: Cmd, last: bool): seq<string> {
    if c.nextPipe == 1 then [AND]
    else if last && (c.args != [] || Redirects(c) != []) then []
    else [PIPE]
  }

  function Print(cmds: seq<Cmd>): seq<string> {
    if cmds == [] then []
    else cmds[0].args + Redirects(cmds[0]) + Separator(cmds[0], |cmds| == 1) + Print(cmds[1..])
  }

  lemma ArgCountIs(tokens: seq<string>, n: nat)
    requires n <= |tokens| && (forall k :: 0 <= k < n ==> !IsSpecial(tokens[k]))
    requires n == |tokens| || IsSpecial(tokens[n])
    ensures ArgCount(tokens) == n
  {
  }

  /** The setter reads back the redirections and the separator that were printed. */
  lemma SetReadsPrinted(c: Cmd, last: bool, rest: seq<string>)
    requires WellFormed(c) && (last ==> rest == [])
    ensures Set(Fresh(c.args), Redirects(c) + Separator(c, last) + rest) == (c, rest)
  {
    hide Set, Separator;
    var sep := Separator(c, last) + rest;
    var c1 := Fresh(c.args).(input := c.input);
    var c2 := c1.(output := c.output);
    SetReadsRedirect(Fresh(c.args), LT, c.input, Redirect(GT, c.output) + sep);
    SetReadsRedirect(c1, GT, c.output, sep);
    SetReadsSeparator(c, c2, last, rest);
    assert Redirects(c) + Separator(c, last) + rest == Redirect(LT, c.input) + (Redirect(GT, c.output) + sep);
  }

  lemma SetReadsRedirect(c: Cmd, op: string, file: Option<string>, rest: seq<string>)
    requires (op == LT && c.input == None) || (op == GT && c.output == None)
    ensures Set(c, Redirect(op, file) + rest)
         == Set(if op == LT then c.(input := file) else c.(output := file), rest)
  {
    var tokens := Redirect(op, file) + rest;
    if file.Some? {
      assert tokens[2..] == rest;
    } else {
      assert tokens == rest;
    }
  }

  lemma SetReadsSeparator(c: Cmd, c2: Cmd, last: bool, rest: seq<string>)
    requires WellFormed(c) && (last ==> rest == []) && c2 == c.(nextPipe := 0)
    ensures Set(c2, Separator(c, last) + rest) == (c, rest)
  {
    var tokens := Separator(c, last) + rest;
    if Separator(c, last) != [] {
      assert tokens[1..] == rest;
    }
  }

  /** Building from printed commands gives the commands back. */
  lemma {:induction false} BuildPrinted(cmds: seq<Cmd>)
    requires AllWellFormed(cmds)
    ensures Build(Print(cmds)) == cmds
    decreases |cmds|
  {
    hide Set, IsSpecial, Redirects, Separator;
    if cmds != [] {
      var c, last, rest := cmds[0], |cmds| == 1, Print(cmds[1..]);
      var tail := Redirects(c) + Separator(c, last) + rest;
      var tokens := Print(cmds);
      assert tokens == c.args + tail;
      PrintedSomething(c, last);
      assert tail != [] ==> IsSpecial(tail[0]) by { PrintedTail(c, last, rest); }
      ArgCountIs(tokens, |c.args|);
      assert tokens[..|c.args|] == c.args && tokens[|c.args|..] == tail;
      SetReadsPrinted(c, last, rest);
      BuildPrinted(cmds[1..]);
    }
  }

  lemma PrintedSomething(c: Cmd, last: bool)
    ensures c.args + Redirects(c) + Separator(c, last) != []
  {
  }

  lemma PrintedTail(c: Cmd, last: bool, rest: seq<string>)
    requires last ==> rest == []
    ensures var tail := Redirects(c) + Separator(c, last) + rest;
            tail != [] ==> IsSpecial(tail[0])
  {
  }

  lemma SetKeepsWellFormed(c: Cmd, tokens: seq<string>)
    requires WellFormed(c)
    ensures WellFormed(Set(c, tokens).0)
    decreases |tokens|
  {
  }

  lemma {:induction false} BuildIsWellFormed(tokens: seq<string>)
    ensures AllWellFormed(Build(tokens))
    decreases |tokens|
  {
    hide Set, WellFormed;
    if tokens != [] {
      var n := ArgCount(tokens);
      assert WellFormed(Fresh(tokens[..n])) by { FreshIsWellFormed(tokens[..n]); }
      SetKeepsWellFormed(Fresh(tokens[..n]), tokens[n..]);
      BuildIsWellFormed(Set(Fresh(tokens[..n]), tokens[n..]).1);
    }
  }

  lemma FreshIsWellFormed(args: seq<string>)
    requires forall k :: 0 <= k < |args| ==> !IsSpecial(args[k])
    ensures WellFormed(Fresh(args))
  {
  }

  /** The lists that can be built are exactly the well-formed ones. */
  lemma BuildableIffWellFormed(cmds: seq<Cmd>)
    ensures (exists tokens :: Build(tokens) == cmds) <==> AllWellFormed(cmds)
  {
    if tokens :| Build(tokens) == cmds {
      BuildIsWellFormed(tokens);
    }
    if AllWellFormed(cmds) {
      BuildPrinted(cmds);
    }
  }

  /** Any token list means the same as its printed form. */
  lemma PrintNormalises(tokens: seq<string>)
    ensures Build(Print(Build(tokens))) == Build(tokens)
  {
    BuildIsWellFormed(tokens);
    BuildPrinted(Build(tokens));
  }

  // ---------------------------------------------------------------------------------------
  // Any token list, command by command.

  /** A redirection as it is written. */
  datatype Redir = Redir(op: string, file: string)

  predicate RedirsOK(rs: seq<Redir>) {
    forall k :: 0 <= k < |rs| ==> rs[k].op == LT || rs[k].op == GT
  }

  function RedirTokens(rs: seq<Redir>): seq<string> {
    if rs == [] then [] else [rs[0].op, rs[0].file] + RedirTokens(rs[1..])
  }

  /** A later redirection of the same kind replaces an earlier one. */
  function Redirected(c: Cmd, rs: seq<Redir>): Cmd
    decreases |rs|
  {
    if rs == [] then c
    else Redirected(if rs[0].op == LT then c.(input := Some(rs[0].file)) else c.(output := Some(rs[0].file)), rs[1..])
  }

  lemma {:induction false} SetReadsRedirs(c: Cmd, rs: seq<Redir>, rest: seq<string>)
    requires RedirsOK(rs)
    ensures Set(c, RedirTokens(rs) + rest) == Set(Redirected(c, rs), rest)
    decreases |rs|
  {
    if rs == [] {
      assert RedirTokens(rs) + rest == rest;
    } else {
      var tokens := RedirTokens(rs) + rest;
      assert tokens[2..] == RedirTokens(rs[1..]) + rest;
      var c1 := if rs[0].op == LT then c.(input := Some(rs[0].file)) else c.(output := Some(rs[0].file));
      SetReadsRedirs(c1, rs[1..], rest);
    }
  }

  /** How a command can end: at a separator, or where a word follows a redirection, or with the tokens. */
  predicate Ends(rs: seq<Redir>, sep: seq<string>, rest: seq<string>) {
    || sep == [PIPE] || sep == [AND] || sep == [NOT]
    || (sep == [] && (rest == [] || (rs != [] && !IsSpecial(rest[0]))))
  }

  /** The first command is read from the tokens behind its arguments. */
  lemma BuildTail(args: seq<string>, tail: seq<string>)
    requires (forall k :: 0 <= k < |args| ==> !IsSpecial(args[k])) && (tail != [] ==> IsSpecial(tail[0]))
    requires args + tail != []
    ensures Build(args + tail) == [Set(Fresh(args), tail).0] + Build(Set(Fresh(args), tail).1)
  {
    hide Set, IsSpecial;
    ArgCountIs(args + tail, |args|);
    assert (args + tail)[..|args|] == args && (args + tail)[|args|..] == tail;
  }

  lemma Regroup<T>(a: seq<T>, b: seq<T>, c: seq<T>, d: seq<T>)
    ensures a + b + c + d == a + (b + (c + d))
  {
  }

  lemma BuildWith(args: seq<string>, rs: seq<Redir>, end: seq<string>, c: Cmd, rest: seq<string>)
    requires (forall k :: 0 <= k < |args| ==> !IsSpecial(args[k])) && RedirsOK(rs)
    requires args + (RedirTokens(rs) + end) != [] && (RedirTokens(rs) + end != [] ==> IsSpecial((RedirTokens(rs) + end)[0]))
    requires Set(Redirected(Fresh(args), rs), end) == (c, rest)
    ensures Build(args + (RedirTokens(rs) + end)) == [c] + Build(rest)
  {
    hide Set, Redirected, Build, IsSpecial, RedirTokens;
    BuildTail(args, RedirTokens(rs) + end);
    SetReadsRedirs(Fresh(args), rs, end);
  }

  /** A command is its arguments, with the last redirections of either kind; `&&` alone marks it, and `!` only
      ends it.  The commands after it are those of the tokens that remain. */
  lemma OneCommand(args: seq<string>, rs: seq<Redir>, sep: seq<string>, rest: seq<string>)
    requires (forall k :: 0 <= k < |args| ==> !IsSpecial(args[k])) && RedirsOK(rs) && Ends(rs, sep, rest)
    requires args + RedirTokens(rs) + sep + rest != []
    ensures Build(args + RedirTokens(rs) + sep + rest) ==
              [Redirected(Fresh(args), rs).(nextPipe := if sep == [AND] then 1 else 0)] + Build(rest)
  {
    hide Set, Redirected, Build, IsSpecial, RedirTokens, Ends;
    Regroup(args, RedirTokens(rs), sep, rest);
    TailSpecial(rs, sep, rest);
    var c := Redirected(Fresh(args), rs);
    RedirectedKeeps(Fresh(args), rs);
    SetAtEnd(c, rs, sep, rest);
    BuildWith(args, rs, sep + rest, c.(nextPipe := if sep == [AND] then 1 else 0), rest);
  }

  lemma TailSpecial(rs: seq<Redir>, sep: seq<string>, rest: seq<string>)
    requires RedirsOK(rs) && Ends(rs, sep, rest)
    ensures var tail := RedirTokens(rs) + (sep + rest); tail != [] ==> IsSpecial(tail[0])
  {
  }

  lemma {:induction false} RedirectedKeeps(c: Cmd, rs: seq<Redir>)
    ensures var c1 := Redirected(c, rs); c1.args == c.args && c1.nextPipe == c.nextPipe && c1.negate == c.negate
    decreases |rs|
  {
    if rs != [] {
      RedirectedKeeps(if rs[0].op == LT then c.(input := Some(rs[0].file)) else c.(output := Some(rs[0].file)), rs[1..]);
    }
  }

  lemma SetAtEnd(c: Cmd, rs: seq<Redir>, sep: seq<string>, rest: seq<string>)
    requires Ends(rs, sep, rest) && c.nextPipe == 0 && c.negate == 1
    ensures Set(c, sep + rest) == (c.(nextPipe := if sep == [AND] then 1 else 0), rest)
  {
    if sep == [] {
      assert sep + rest == rest;
    } else {
      assert (sep + rest)[1..] == rest;
    }
  }

  /** A redirection without its file is dropped, and ends the list. */
  lemma MissingFile(args: seq<string>, rs: seq<Redir>, op: string)
    requires (forall k :: 0 <= k < |args| ==> !IsSpecial(args[k])) && RedirsOK(rs) && (op == LT || op == GT)
    ensures Build(args + RedirTokens(rs) + [op]) == [Redirected(Fresh(args), rs)]
  {
    hide Redirected, Build, RedirTokens;
    var tail := RedirTokens(rs) + [op];
    assert args + RedirTokens(rs) + [op] == args + tail;
    RedirsStart(rs, op);
    BuildTail(args, tail);
    SetReadsRedirs(Fresh(args), rs, [op]);
    BuildsNothing();
  }

  lemma RedirsStart(rs: seq<Redir>, op: string)
    requires RedirsOK(rs) && (op == LT || op == GT)
    ensures IsSpecial((RedirTokens(rs) + [op])[0])
  {
  }

  lemma BuildsNothing()
    ensures Build([]) == []
  {
  }

  // ---------------------------------------------------------------------------------------
  // From text to commands.

  predicate IsOperator(token: string) {
    |token| == 1 && IsOp(token[0])
  }

  /** A token that can be written without quotes. */
  predicate Plain(token: string) {
    && token != "" && Unquoted(token)
    && (IsOperator(token) || forall k :: 0 <= k < |token| ==> IsWordChar(token[k]))
  }

  predicate AllPlain(tokens: seq<string>) {
    forall k :: 0 <= k < |tokens| ==> Plain(tokens[k])
  }

  /** Tokens written with gaps[k] before token k and the last gap at the end. */
  function Line(tokens: seq<string>, gaps: seq<string>): string
    requires |gaps| == |tokens| + 1
  {
    var n := |tokens|;
    if n == 0 then gaps[0] else Line(tokens[..n - 1], gaps[..n]) + tokens[n - 1] + gaps[n]
  }

  /** The gaps are space, and there is some between two words. */
  predicate Spaced(tokens: seq<string>, gaps: seq<string>) {
    && |gaps| == |tokens| + 1
    && (forall k :: 0 <= k < |gaps| ==> Blank(gaps[k]))
    && forall k :: 0 < k < |tokens| && gaps[k] == "" ==> IsOperator(tokens[k - 1]) || IsOperator(tokens[k])
  }

  lemma TokensOfPlain(token: string)
    requires Plain(token)
    ensures Tokens(token) == [token]
  {
    if IsOperator(token) {
      TokensOfOne(token[0]);
      assert token == [token[0]];
    } else {
      RunIs(token, |token|);
      FirstToken(token);
      TokensOfNothing();
      assert token[|token|..] == "" && token[..|token|] == token;
    }
  }

  lemma BlankIsUnquoted(s: string)
    requires Blank(s)
    ensures Unquoted(s)
  {
  }

  lemma UnquotedJoin(a: string, b: string)
    requires Unquoted(a) && Unquoted(b)
    ensures Unquoted(a + b)
  {
    hide IsQuote;
  }

  lemma {:induction false} TokensOfLine(tokens: seq<string>, gaps: seq<string>)
    requires AllPlain(tokens) && Spaced(tokens, gaps)
    ensures Tokens(Line(tokens, gaps)) == tokens && Unquoted(Line(tokens, gaps))
    ensures Line(tokens, gaps) == "" || !IsWordChar(Last(Line(tokens, gaps)))
         || (tokens != [] && gaps[|tokens|] == "" && !IsOperator(Last(tokens)))
    decreases |tokens|
  {
    hide Tokens, Unquoted, IsSpace, IsOp;
    var n := |tokens|;
    if n == 0 {
      TokensOfBlank(gaps[0]);
      BlankIsUnquoted(gaps[0]);
    } else {
      var front, token, gap := Line(tokens[..n - 1], gaps[..n]), tokens[n - 1], gaps[n];
      TokensOfLine(tokens[..n - 1], gaps[..n]);
      TokensOfPlain(token);
      TokensOfBlank(gap);
      assert AtBoundary(front) || !IsWordChar(token[0]);
      TokensSplit(front, token);
      TokensSplit(front + token, gap);
      BlankIsUnquoted(gap);
      UnquotedJoin(front, token);
      UnquotedJoin(front + token, gap);
      assert tokens == tokens[..n - 1] + [token];
      assert gap == "" ==> Last(front + token + gap) == Last(token);
      assert gap != "" ==> Last(front + token + gap) == Last(gap);
    }
  }

  /** Commands printed as a line with any spacing, read by parse and built into a list, come back
      unchanged, redirections and separators included. */
  lemma CommandsRoundTrip(cmds: seq<Cmd>, gaps: seq<string>, argcMax: int, bufLen: int)
    requires AllWellFormed(cmds) && AllPlain(Print(cmds)) && Spaced(Print(cmds), gaps)
    requires Fits(Print(cmds), argcMax, bufLen)
    ensures Build(ParseWords(Line(Print(cmds), gaps), argcMax, bufLen)) == cmds
  {
    TokensOfLine(Print(cmds), gaps);
    ParseIsTokens(Line(Print(cmds), gaps), argcMax, bufLen);
    BuildPrinted(cmds);
  }

  /** A pipeline of word lists, as tokens. */
  function Pipeline(stages: seq<seq<string>>): seq<string> {
    if stages == [] then []
    else if |stages| == 1 then stages[0]
    else stages[0] + [PIPE] + Pipeline(stages[1..])
  }

  /** Non-empty lists of words that are no operators. */
  predicate PlainStages(stages: seq<seq<string>>) {
    forall k :: 0 <= k < |stages| ==> PlainStage(stages[k])
  }

  predicate PlainStage(args: seq<string>) {
    args != [] && AllPlain(args) && forall j :: 0 <= j < |args| ==> !IsSpecial(args[j])
  }

  function Stages(stages: seq<seq<string>>): (cmds: seq<Cmd>)
    ensures |cmds| == |stages|
    ensures forall k :: 0 <= k < |stages| ==> cmds[k] == Fresh(stages[k])
  {
    if stages == [] then [] else [Fresh(stages[0])] + Stages(stages[1..])
  }

  lemma {:induction false} PipelineIsPrinted(stages: seq<seq<string>>)
    requires PlainStages(stages)
    ensures Pipeline(stages) == Print(Stages(stages))
    ensures AllPlain(Pipeline(stages))
    decreases |stages|
  {
    hide Plain, IsSpecial;
    if stages != [] {
      var c, rest := Fresh(stages[0]), stages[1..];
      PipelineIsPrinted(rest);
      PipeIsPlain();
      assert Stages(stages) == [c] + Stages(rest);
      assert Redirects(c) == [];
      assert PlainStage(stages[0]);
      if rest == [] {
        assert Separator(c, true) == [];
      } else {
        assert Separator(c, false) == [PIPE];
      }
    }
  }

  lemma PipeIsPlain()
    ensures Plain(PIPE)
  {
  }

  /** A pipeline written as text, parsed and built gives one command per stage with exactly the
      stage's words as arguments. */
  lemma PipelineRoundTrip(stages: seq<seq<string>>, gaps: seq<string>, argcMax: int, bufLen: int)
    requires PlainStages(stages) && Spaced(Pipeline(stages), gaps)
    requires Fits(Pipeline(stages), argcMax, bufLen)
    ensures var cmds := Build(ParseWords(Line(Pipeline(stages), gaps), argcMax, bufLen));
            && |cmds| == |stages|
            && forall k :: 0 <= k < |stages| ==> cmds[k] == Cmd(stages[k], None, None, 0, 1)
  {
    hide Plain, Fits, Print, Pipeline;
    PipelineIsPrinted(stages);
    CommandsRoundTrip(Stages(stages), gaps, argcMax, bufLen);
  }
}
