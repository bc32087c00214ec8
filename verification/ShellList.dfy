/** The doubly linked list of command nodes, built from tokens and freed from its head. */
module ShellList {
  import opened ShellCommands
  import opened Wrappers

  class Command {
    var command: Option<string>
    var args: array?<Option<string>>
    var input: Option<string>
    var output: Option<string>
    var next: Command?
    var prev: Command?
    var nextPipe: int
    var negate: int
    ghost var live: bool // not freed yet

    /** createCommand */
    constructor ()
      ensures command == None && args == null && input == None && output == None
      ensures next == null && prev == null && nextPipe == 0 && negate == 1 && live
    {
      command, args, input, output := None, null, None, None;
      next, prev := null, null;
      nextPipe, negate := 0, 1;
      live := true;
    }

    /** The node carries `c`: its words in order, then a null pointer; the first is the command. */
    ghost predicate Holds(c: Cmd)
      reads this`command, this`args, this`input, this`output, this`nextPipe, this`negate, args
    {
      && args != null && args.Length == |c.args| + 1
      && (forall j :: 0 <= j < |c.args| ==> args[j] == Some(c.args[j])) && args[|c.args|] == None
      && command == (if c.args == [] then None else Some(c.args[0]))
      && input == c.input && output == c.output && nextPipe == c.nextPipe && negate == c.negate
    }
  }

  /** `nodes` are linked in order, forwards and backwards, between `head` and `tail`. */
  ghost predicate Chain(nodes: seq<Command>, head: Command?, tail: Command?)
    reads set n | n in nodes
  {
    && (forall k, l :: 0 <= k < l < |nodes| ==> nodes[k] != nodes[l])
    && (nodes == [] ==> head == null && tail == null)
    && (nodes != [] ==> head == nodes[0] && tail == nodes[|nodes| - 1])
    && (forall k :: 0 <= k < |nodes| ==> nodes[k].next == (if k + 1 < |nodes| then nodes[k + 1] else null))
    && (forall k :: 0 <= k < |nodes| ==> nodes[k].prev == (if k > 0 then nodes[k - 1] else null))
    && (forall k :: 0 <= k < |nodes| ==> nodes[k].live)
  }

  /** addCommand: the new node goes behind the last one; no other link changes. */
  method AddCommand(head: Command?, tail: Command?, cmd: Command, ghost nodes: seq<Command>)
      returns (newHead: Command?, newTail: Command?)
    requires Chain(nodes, head, tail) && cmd !in nodes
    requires cmd.next == null && cmd.prev == null && cmd.live
    modifies (if tail == null then {} else {tail})`next, cmd`prev
    ensures Chain(nodes + [cmd], newHead, newTail)
  {
    assert forall k :: 0 <= k < |nodes| ==> nodes[k] in nodes && nodes[k] != cmd;
    if head == null {
      newHead, newTail := cmd, cmd;
    } else {
      tail.next := cmd;
      cmd.prev := tail;
      newHead, newTail := head, cmd;
    }
  }

  /** The tokens from `start`, `count` of them, and a null pointer. */
  method CopyArgs(tokens: seq<string>, start: nat, count: nat) returns (args: array<Option<string>>)
    requires start + count <= |tokens|
    ensures fresh(args) && args.Length == count + 1 && args[count] == None
    ensures forall j :: 0 <= j < count ==> args[j] == Some(tokens[start + j])
  {
    args := new Option<string>[count + 1](_ => None);
    for j := 0 to count
      invariant forall l :: 0 <= l < j ==> args[l] == Some(tokens[start + l])
    {
      args[j] := Some(tokens[start + j]);
    }
    args[count] := None;
  }

  /** One turn of the setter, on the token at the front. */
  lemma SetStep(c: Cmd, tokens: seq<string>, i: nat)
    requires i <= |tokens|
    ensures i == |tokens| || !IsSpecial(tokens[i]) ==> Set(c, tokens[i..]) == (c, tokens[i..])
    ensures i < |tokens| && (tokens[i] == LT || tokens[i] == GT) ==>
              (Set(c, tokens[i..]) ==
                 if i + 1 == |tokens| then (c, tokens[i + 1..])
                 else if tokens[i] == LT then Set(c.(input := Some(tokens[i + 1])), tokens[i + 2..])
                 else Set(c.(output := Some(tokens[i + 1])), tokens[i + 2..]))
    ensures i < |tokens| && tokens[i] == PIPE ==> Set(c, tokens[i..]) == (c.(nextPipe := 0), tokens[i + 1..])
    ensures i < |tokens| && tokens[i] == AND ==> Set(c, tokens[i..]) == (c.(nextPipe := 1), tokens[i + 1..])
    ensures i < |tokens| && tokens[i] == NOT ==> Set(c, tokens[i..]) == (c.(negate := 1), tokens[i + 1..])
  {
    if i < |tokens| {
      assert tokens[i..][0] == tokens[i] && tokens[i..][1..] == tokens[i + 1..];
      if i + 1 < |tokens| {
        assert tokens[i..][1] == tokens[i + 1] && tokens[i..][2..] == tokens[i + 2..];
      }
    }
  }

  /** The setter loop: redirections, until a separator or a word. */
  method SetFields(current: Command, tokens: seq<string>, start: nat, ghost c0: Cmd) returns (i: nat)
    requires start <= |tokens| && current.Holds(c0)
    modifies current`input, current`output, current`nextPipe, current`negate
    ensures start <= i <= |tokens| && (start < |tokens| && IsSpecial(tokens[start]) ==> start < i)
    ensures current.Holds(Set(c0, tokens[start..]).0) && Set(c0, tokens[start..]).1 == tokens[i..]
  {
    hide Set;
    i := start;
    ghost var c := c0;
    while i < |tokens| && IsSpecial(tokens[i])
      invariant start <= i <= |tokens|
      invariant i == start ==> c == c0
      invariant current.Holds(c) && Set(c, tokens[i..]) == Set(c0, tokens[start..])
    {
      SetStep(c, tokens, i);
      if tokens[i] == LT {
        i := i + 1;
        if i < |tokens| {
          current.input := Some(tokens[i]);
          c := c.(input := Some(tokens[i]));
          i := i + 1;
        } else {
          return;
        }
      } else if tokens[i] == GT {
        i := i + 1;
        if i < |tokens| {
          current.output := Some(tokens[i]);
          c := c.(output := Some(tokens[i]));
          i := i + 1;
        } else {
          return;
        }
      } else if tokens[i] == PIPE {
        i := i + 1;
        current.nextPipe := 0;
        return;
      } else if tokens[i] == AND {
        i := i + 1;
        current.nextPipe := 1;
        return;
      } else {
        i := i + 1;
        current.negate := 1;
        return;
      }
    }
    SetStep(c, tokens, i);
  }

  lemma BuildStep(tokens: seq<string>, from: nat, to: nat)
    requires from <= to <= |tokens| && from < |tokens|
    requires forall k :: from <= k < to ==> !IsSpecial(tokens[k])
    requires to == |tokens| || IsSpecial(tokens[to])
    ensures var r := Set(Fresh(tokens[from..to]), tokens[to..]);
            Build(tokens[from..]) == [r.0] + Build(r.1)
  {
    ArgCountIs(tokens[from..], to - from);
    assert tokens[from..][..to - from] == tokens[from..to] && tokens[from..][to - from..] == tokens[to..];
  }

  /** One node from the tokens at `from`, as one turn of the outer loop makes it. */
  method NextCommand(tokens: seq<string>, from: nat) returns (current: Command, i: nat, ghost c: Cmd)
    requires from < |tokens|
    ensures fresh(current) && fresh(current.args) && current.Holds(c)
    ensures current.next == null && current.prev == null && current.live
    ensures from < i <= |tokens|
    ensures Build(tokens[from..]) == [c] + Build(tokens[i..])
  {
    hide Set, Build, IsSpecial;
    current := new Command();
    i := from;
    while i < |tokens| && !IsSpecial(tokens[i])
      invariant from <= i <= |tokens|
      invariant forall k :: from <= k < i ==> !IsSpecial(tokens[k])
    {
      i := i + 1;
    }
    var count := i - from;
    current.args := CopyArgs(tokens, from, count);
    if count > 0 {
      current.command := Some(tokens[from]);
    }
    BuildStep(tokens, from, i);
    c := Set(Fresh(tokens[from..i]), tokens[i..]).0;
    i := SetFields(current, tokens, i, Fresh(tokens[from..i]));
  }

  lemma EmptyChain()
    ensures Chain([], null, null)
  {
  }

  lemma ChainEnds(nodes: seq<Command>, head: Command?, tail: Command?)
    requires Chain(nodes, head, tail)
    ensures tail == if nodes == [] then null else nodes[|nodes| - 1]
  {
  }

  /** buildCommandList: a fresh chain, one node for each command of the specification, in order. */
  method BuildCommandList(tokens: seq<string>) returns (head: Command?, ghost nodes: seq<Command>)
    ensures Chain(nodes, head, if nodes == [] then null else nodes[|nodes| - 1])
    ensures |nodes| == |Build(tokens)|
    ensures forall k :: 0 <= k < |nodes| ==> fresh(nodes[k]) && nodes[k].Holds(Build(tokens)[k])
  {
    hide Build, Chain, Command.Holds;
    head, nodes := null, [];
    EmptyChain();
    var tail: Command? := null;
    var i := 0;
    ghost var done: seq<Cmd> := [];
    assert tokens[0..] == tokens;
    while i < |tokens|
      invariant 0 <= i <= |tokens|
      invariant Chain(nodes, head, tail) && |nodes| == |done|
      invariant done + Build(tokens[i..]) == Build(tokens)
      invariant forall k :: 0 <= k < |nodes| ==> fresh(nodes[k]) && fresh(nodes[k].args) && nodes[k].Holds(done[k])
    {
      var current;
      ghost var c;
      current, i, c := NextCommand(tokens, i);
      ChainEnds(nodes, head, tail);
      head, tail := AddCommand(head, tail, current, nodes);
      nodes := nodes + [current];
      done := done + [c];
    }
    assert tokens[i..] == [];
    ChainEnds(nodes, head, tail);
    BuildOfNothing();
  }

  lemma BuildOfNothing()
    ensures Build([]) == []
  {
  }

  /** free, of a node that has not been freed. */
  method Free(cmd: Command)
    requires cmd.live
    modifies cmd`live
    ensures !cmd.live
  {
    cmd.live := false;
  }

  /** freeCommandList: every node is freed, none twice, and none is read after it is freed. */
  method FreeCommandList(head: Command?, ghost nodes: seq<Command>, ghost tail: Command?)
    requires Chain(nodes, head, tail)
    modifies (set n | n in nodes)`live
    ensures forall k :: 0 <= k < |nodes| ==> !nodes[k].live
  {
    var current := head;
    ghost var k := 0;
    while current != null
      invariant 0 <= k <= |nodes|
      invariant current == if k < |nodes| then nodes[k] else null
      invariant forall l :: 0 <= l < |nodes| ==> nodes[l].live == (k <= l)
      invariant forall l :: 0 <= l < |nodes| ==> nodes[l].next == if l + 1 < |nodes| then nodes[l + 1] else null
      decreases |nodes| - k
    {
      assert current == nodes[k] && current.live;
      var next := current.next;
      assert next == if k + 1 < |nodes| then nodes[k + 1] else null;
      Free(current);
      current := next;
      k := k + 1;
    }
  }
}
