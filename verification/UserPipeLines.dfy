/** What a typed line makes the shell do, told without the parser and without the way the shell looks at operators:
    actions are written down as words, and every line written this way is exactly those actions. */
module UserPipeLines {
  import opened Text
  import opened UserPipes
  import PipeGraph
  import ServerParser
  import UserPipeServer

  /** The actions of the shell that has received a line. */
  function ActionsOfText(text: string): seq<Action> {
    UserPipeServer.ParsedOperators(text);
    ActionsFrom(ServerParser.ParseLine(text), 0)
  }

  // ---------- actions in writing ----------

  /** An action as it may be typed: the command in front of the operators, which of `<i >j` comes first, and
      operators behind the ones that count. */
  datatype Typed = Typed(name: string, args: seq<string>, action: Action, swapped: bool, extra: seq<string>)

  function OutputWords(out: PipeGraph.Output): seq<string> {
    match out
    case ToNext => ["|"]
    case ToFile(_) => [">"]
    case ToConsole => []
    case ToSession(ahead, withErr) => [(if withErr then "!" else "|") + Decimal(ahead)]
  }

  function ActionWords(a: Action, swapped: bool): seq<string> {
    match a
    case Own(_, _) => []
    case Plain(_, _, out) => OutputWords(out)
    case Receive(_, _, from, out) => ["<" + Decimal(from)] + OutputWords(out)
    case TakeOnly(from) => ["<" + Decimal(from), ">"]
    case Send(_, _, to) => [">" + Decimal(to)]
    case SendReceive(_, _, from, to) =>
      if swapped then [">" + Decimal(to), "<" + Decimal(from)] else ["<" + Decimal(from), ">" + Decimal(to)]
  }

  function Written(t: Typed): ServerParser.Command {
    ServerParser.Command(t.name, t.args, ActionWords(t.action, t.swapped) + t.extra)
  }

  function AllWritten(ts: seq<Typed>): seq<ServerParser.Command> {
    seq(|ts|, (i: nat) requires i < |ts| => Written(ts[i]))
  }

  function Actions(ts: seq<Typed>): seq<Action> {
    seq(|ts|, (i: nat) requires i < |ts| => ts[i].action)
  }

  /** The commands that the shell runs itself. */
  predicate IsOwn(name: string) {
    || name == "exit" || name == "printenv" || name == "setenv" || name == "who"
    || name == "yell" || name == "name" || name == "tell"
  }

  /** The action belongs to the command that is typed. */
  predicate Names(t: Typed) {
    match t.action
    case Own(name, args) => IsOwn(name) && name == t.name && args == t.args
    case Plain(name, args, _) => !IsOwn(name) && name == t.name && args == t.args
    case Receive(name, args, from, _) => !IsOwn(name) && name == t.name && args == t.args && from >= 1
    case TakeOnly(from) => !IsOwn(t.name) && from >= 1
    case Send(name, args, to) => !IsOwn(name) && name == t.name && args == t.args && to >= 1
    case SendReceive(name, args, from, to) =>
      !IsOwn(name) && name == t.name && args == t.args && from >= 1 && to >= 1
  }

  predicate IsFrom(op: string) {
    op != "" && op[0] == '<'
  }

  /** A file is named by the command behind `>`. */
  predicate FileFits(out: PipeGraph.Output, behind: seq<ServerParser.Command>) {
    out.ToFile? ==> behind != [] && behind[0].name == out.file
  }

  /** What may stand behind the operators that count, and behind the command. */
  predicate Fits(t: Typed, behind: seq<ServerParser.Command>) {
    Names(t) &&
    match t.action
    case Own(_, _) => true
    case Plain(_, _, out) => FileFits(out, behind) && (out.ToConsole? ==> t.extra == [])
    case Receive(_, _, _, out) => FileFits(out, behind) && (out.ToConsole? && t.extra != [] ==> IsFrom(t.extra[0]))
    case TakeOnly(_) => behind == []
    case Send(_, _, _) => t.extra != [] ==> !IsFrom(t.extra[0])
    case SendReceive(_, _, _, _) => true
  }

  /** Nothing behind such an action is looked at. */
  predicate GivesUp(a: Action) {
    a.TakeOnly? || a.Send? || a.SendReceive? || (a.Plain? && a.out.ToFile?)
  }

  /** Commands behind the last action that do nothing: any, if the last action gives the line up, and otherwise
      none, or one that asks for a file and has no name for it. */
  predicate Idle(ts: seq<Typed>, more: seq<ServerParser.Command>) {
    || (ts != [] && GivesUp(ts[|ts| - 1].action))
    || more == []
    || (|more| == 1 && !IsOwn(more[0].name) && more[0].operators != [] && more[0].operators[0] == ">")
  }

  ghost predicate AllFit(ts: seq<Typed>, more: seq<ServerParser.Command>) {
    && (forall i | 0 <= i < |ts| :: Fits(ts[i], AllWritten(ts)[i + 1..] + more))
    && (forall i | 0 <= i < |ts| - 1 :: !GivesUp(ts[i].action))
    && Idle(ts, more)
  }

  // ---------- what the shell makes of written actions ----------

  lemma NumberIs(c: char, n: nat)
    requires c in "|!<>" && n >= 1
    ensures var op := [c] + Decimal(n);
            ServerParser.IsNumbered(op) && Number(op) == n && HasNumber(op, c) && IsWord(op)
            && op != "|" && op != ">" && op != ""
    ensures forall c' | c' != c :: !HasNumber([c] + Decimal(n), c')
  {
    assert ServerParser.Spells([c] + Decimal(n), c, n);
    ServerParser.SpellsNumbered([c] + Decimal(n), c, n);
  }

  lemma OwnNames(name: string)
    ensures IsOwn(name) <==> IsBuiltin(name)
  {
  }

  lemma OutputIs(out: PipeGraph.Output)
    requires !out.ToFile?
    ensures |OutputWords(out)| == if out.ToConsole? then 0 else 1
    ensures OutputOf(if out.ToConsole? then "" else OutputWords(out)[0]) == out
    ensures out.ToConsole? || (var op := OutputWords(out)[0]; op != ">" && !HasNumber(op, '>') && !HasNumber(op, '<'))
  {
    if out.ToSession? {
      NumberIs(if out.withErr then '!' else '|', out.ahead);
      hide Decimal, Number;
    }
  }

  /** The shell's reading of one written command. */
  lemma ReadsAction(cs: seq<ServerParser.Command>, i: nat, t: Typed)
    requires ProperOperators(cs) && i < |cs| && cs[i] == Written(t) && Fits(t, cs[i + 1..])
    ensures ActionsFrom(cs, i) == [t.action] + (if GivesUp(t.action) then [] else ActionsFrom(cs, i + 1))
  {
    OwnNames(t.name);
    hide IsBuiltin, IsOwn, Number, Decimal;
    match t.action {
      case Own(_, _) =>
      case Plain(_, _, out) =>
        if !out.ToFile? { OutputIs(out); }
      case Receive(_, _, from, out) =>
        NumberIs('<', from);
        if !out.ToFile? { OutputIs(out); }
      case TakeOnly(from) =>
        NumberIs('<', from);
      case Send(_, _, to) =>
        NumberIs('>', to);
      case SendReceive(_, _, from, to) =>
        NumberIs('<', from);
        NumberIs('>', to);
    }
  }

  lemma NothingMore(cs: seq<ServerParser.Command>, i: nat)
    requires ProperOperators(cs) && i <= |cs|
    requires i == |cs| || (i + 1 == |cs| && !IsOwn(cs[i].name) && cs[i].operators != [] && cs[i].operators[0] == ">")
    ensures ActionsFrom(cs, i) == []
  {
    if i < |cs| { OwnNames(cs[i].name); }
    hide IsOwn, IsBuiltin, Number;
  }

  lemma ReadsOn(cs: seq<ServerParser.Command>, ts: seq<Typed>, more: seq<ServerParser.Command>, i: nat)
    requires ProperOperators(cs) && cs == AllWritten(ts) + more && AllFit(ts, more) && i <= |ts|
    requires i == |ts| && ts != [] ==> !GivesUp(ts[|ts| - 1].action)
    ensures ActionsFrom(cs, i) == Actions(ts)[i..]
    decreases |ts| - i
  {
    hide ActionsFrom, Fits, Names, Written, GivesUp, IsOwn;
    if i == |ts| {
      assert more != [] ==> cs[i] == more[0];
      NothingMore(cs, i);
    } else {
      assert Fits(ts[i], AllWritten(ts)[i + 1..] + more);
      assert cs[i + 1..] == AllWritten(ts)[i + 1..] + more;
      assert cs[i] == Written(ts[i]);
      ReadsAction(cs, i, ts[i]);
      assert Actions(ts)[i..] == [ts[i].action] + Actions(ts)[i + 1..];
      if !GivesUp(ts[i].action) {
        ReadsOn(cs, ts, more, i + 1);
      }
    }
  }

  // ---------- typed lines ----------

  predicate AllOperators(ops: seq<string>) {
    forall i | 0 <= i < |ops| :: ServerParser.IsOperator(ops[i])
  }

  /** Words that can be typed as the name and the arguments of a command, apart from `yell` and `tell`. */
  predicate CommandWords(name: string, args: seq<string>) {
    ServerParser.IsItem(name) && name != "yell" && name != "tell" && ServerParser.AllItems(args)
  }

  /** Every command but the last has an operator. */
  ghost predicate Typeable(ts: seq<Typed>, more: seq<ServerParser.Command>) {
    && (forall i | 0 <= i < |ts| :: CommandWords(ts[i].name, ts[i].args) && AllOperators(ts[i].extra))
    && (forall i | 0 <= i < |more| :: CommandWords(more[i].name, more[i].args) && AllOperators(more[i].operators))
    && (forall i | 0 <= i < |ts| + |more| - 1 :: (AllWritten(ts) + more)[i].operators != [])
  }

  lemma OperatorIsWord(op: string)
    requires ServerParser.IsOperator(op)
    ensures IsWord(op)
  {
    if ServerParser.IsNumbered(op) {
      forall i | 0 <= i < |op| ensures !IsSpace(op[i]) {
        if i > 0 { assert IsDigit(op[1..][i - 1]); }
      }
    }
  }

  lemma ActionOperators(t: Typed, behind: seq<ServerParser.Command>)
    requires Fits(t, behind) && AllOperators(t.extra)
    ensures AllOperators(Written(t).operators)
  {
    hide Number, Decimal, IsOwn, ServerParser.IsNumbered;
    match t.action {
      case Own(_, _) =>
      case Plain(_, _, out) => OutputOperators(out);
      case Receive(_, _, from, out) =>
        NumberIs('<', from);
        OutputOperators(out);
      case TakeOnly(from) => NumberIs('<', from);
      case Send(_, _, to) => NumberIs('>', to);
      case SendReceive(_, _, from, to) =>
        NumberIs('<', from);
        NumberIs('>', to);
    }
  }

  lemma OutputOperators(out: PipeGraph.Output)
    ensures AllOperators(OutputWords(out))
  {
    if out.ToSession? {
      NumberIs(if out.withErr then '!' else '|', out.ahead);
    }
  }

  lemma WrittenWellFormed(ts: seq<Typed>, more: seq<ServerParser.Command>)
    requires Typeable(ts, more) && AllFit(ts, more)
    ensures ServerParser.WellFormed(AllWritten(ts) + more)
    ensures forall i | 0 <= i < |AllWritten(ts) + more| :: Typable((AllWritten(ts) + more)[i])
  {
    var cs := AllWritten(ts) + more;
    hide CommandWords, Fits, ActionWords, AllOperators;
    forall i | 0 <= i < |cs| ensures ServerParser.PlainCommand(cs[i]) && Typable(cs[i]) {
      if i < |ts| {
        assert cs[i] == Written(ts[i]);
        assert Fits(ts[i], AllWritten(ts)[i + 1..] + more);
        ActionOperators(ts[i], AllWritten(ts)[i + 1..] + more);
      } else {
        assert cs[i] == more[i - |ts|];
      }
      PlainIfTypable(cs[i]);
    }
  }

  predicate Typable(c: ServerParser.Command) {
    CommandWords(c.name, c.args) && AllOperators(c.operators)
  }

  lemma PlainIfTypable(c: ServerParser.Command)
    requires Typable(c)
    ensures ServerParser.PlainCommand(c)
  {
    forall i | 0 <= i < |c.args| ensures ServerParser.IsArgument(c.args[i]) { assert ServerParser.IsItem(c.args[i]); }
    hide ServerParser.IsOperator;
  }

  lemma WordsOfOne(c: ServerParser.Command)
    requires Typable(c)
    ensures var ws := [c.name] + c.args + c.operators; forall i | 0 <= i < |ws| :: IsWord(ws[i])
  {
    hide ServerParser.IsOperator;
    forall i | 0 <= i < |c.operators| ensures IsWord(c.operators[i]) { OperatorIsWord(c.operators[i]); }
    hide IsWord;
    assert forall i | 0 <= i < |c.args| :: ServerParser.IsItem(c.args[i]);
  }

  lemma {:induction false} FlattenWords(cs: seq<ServerParser.Command>)
    requires forall i | 0 <= i < |cs| :: Typable(cs[i])
    ensures forall i | 0 <= i < |ServerParser.Flatten(cs)| :: IsWord(ServerParser.Flatten(cs)[i])
  {
    hide Typable, IsWord;
    if cs != [] {
      WordsOfOne(cs[0]);
      FlattenWords(cs[1..]);
    }
  }

  /** Every list of actions that is typed as a line is what the shell makes of that line: nothing is added, dropped
      or put in another order, and every name, argument, file and number is the one that was typed. */
  lemma TypedActions(ts: seq<Typed>, more: seq<ServerParser.Command>, text: string)
    requires Typeable(ts, more) && AllFit(ts, more)
    requires Tokens(text) == ServerParser.Flatten(AllWritten(ts) + more)
    ensures ActionsOfText(text) == Actions(ts)
  {
    var cs := AllWritten(ts) + more;
    WrittenWellFormed(ts, more);
    hide ServerParser.WellFormed, Typeable, Typable, Tokens, ActionsFrom, ServerParser.ParseLine, GivesUp;
    ServerParser.ParseWords(cs, text);
    UserPipeServer.ParsedOperators(text);
    ReadsOn(cs, ts, more, 0);
    assert Actions(ts)[0..] == Actions(ts);
  }

  /** Such a line with single spaces. */
  lemma JoinedTokens(ts: seq<Typed>, more: seq<ServerParser.Command>)
    requires Typeable(ts, more) && AllFit(ts, more)
    ensures var words := ServerParser.Flatten(AllWritten(ts) + more); Tokens(Join(words)) == words
  {
    WrittenWellFormed(ts, more);
    hide Typeable, AllFit, Typable, IsWord;
    FlattenWords(AllWritten(ts) + more);
    TokensOfJoin(ServerParser.Flatten(AllWritten(ts) + more));
  }

  /** `yell` and `tell` after the actions, with the rest of the line as it is. */
  function WithMessage(ts: seq<Typed>, name: string, args: seq<string>): seq<Typed> {
    ts + [Typed(name, args, Own(name, args), false, [])]
  }

  lemma MessageWritten(ts: seq<Typed>, name: string, args: seq<string>)
    ensures AllWritten(WithMessage(ts, name, args)) + [] == AllWritten(ts) + [ServerParser.Command(name, args, [])]
  {
    var all := WithMessage(ts, name, args);
    assert Written(all[|ts|]) == ServerParser.Command(name, args, []);
    assert forall i | 0 <= i < |ts| :: AllWritten(all)[i] == Written(ts[i]);
    hide Written;
  }

  lemma MessageReads(ts: seq<Typed>, name: string, args: seq<string>, text: string)
    requires AllFit(WithMessage(ts, name, args), []) && IsOwn(name)
    requires ServerParser.ParseLine(text) == AllWritten(ts) + [ServerParser.Command(name, args, [])]
    ensures ActionsOfText(text) == Actions(ts) + [Own(name, args)]
  {
    hide ServerParser.ParseLine, ActionsFrom, ActionWords, AllFit, GivesUp;
    var all := WithMessage(ts, name, args);
    var cs := ServerParser.ParseLine(text);
    MessageWritten(ts, name, args);
    UserPipeServer.ParsedOperators(text);
    ReadsOn(cs, all, [], 0);
    assert Actions(all)[0..] == Actions(ts) + [Own(name, args)];
  }

  lemma MessageLine(ts: seq<Typed>, name: string, rest: string, args: seq<string>)
    requires Typeable(ts, []) && (ts != [] ==> Written(ts[|ts| - 1]).operators != [])
    requires AllFit(WithMessage(ts, name, args), []) && ServerParser.IsRawCommand(name)
    requires Separated(rest) && ServerParser.RawArgs(name, rest) == (args, "")
    ensures ActionsOfText(Join(ServerParser.Flatten(AllWritten(ts))) + (" " + (name + rest))) == Actions(ts) + [Own(name, args)]
  {
    var cs := AllWritten(ts);
    MessageWellFormed(ts, name, args);
    FlattenWords(cs);
    ServerParser.RawNames();
    hide ServerParser.ParseLine, AllFit, Typeable, Typable, ServerParser.WellFormed, ServerParser.RawArgs, IsWord, ActionsOfText;
    ServerParser.LoopRawLine(cs, name, rest, args);
    MessageReads(ts, name, args, Join(ServerParser.Flatten(cs)) + (" " + (name + rest)));
  }

  /** After any actions, `yell` says all the rest of the line, whatever it contains. */
  lemma TypedYell(ts: seq<Typed>, message: string)
    requires Typeable(ts, []) && (ts != [] ==> Written(ts[|ts| - 1]).operators != [])
    requires AllFit(WithMessage(ts, "yell", [message]), []) && ServerParser.IsRest(message)
    ensures ActionsOfText(Join(ServerParser.Flatten(AllWritten(ts))) + (" " + ("yell" + (" " + message))))
         == Actions(ts) + [Own("yell", [message])]
  {
    ServerParser.YellArgs(message);
    MessageLine(ts, "yell", " " + message, [message]);
  }

  /** After any actions, `tell` says to one user all the rest of the line. */
  lemma TypedTell(ts: seq<Typed>, to: string, message: string)
    requires Typeable(ts, []) && (ts != [] ==> Written(ts[|ts| - 1]).operators != [])
    requires AllFit(WithMessage(ts, "tell", [to, message]), []) && IsWord(to) && ServerParser.IsRest(message)
    ensures ActionsOfText(Join(ServerParser.Flatten(AllWritten(ts))) + (" " + ("tell" + (" " + (to + (" " + message))))))
         == Actions(ts) + [Own("tell", [to, message])]
  {
    ServerParser.TellArgs(to, message);
    MessageLine(ts, "tell", " " + (to + (" " + message)), [to, message]);
  }

  lemma MessageWellFormed(ts: seq<Typed>, name: string, args: seq<string>)
    requires Typeable(ts, []) && AllFit(WithMessage(ts, name, args), [])
    ensures ServerParser.WellFormed(AllWritten(ts))
    ensures forall i | 0 <= i < |AllWritten(ts)| :: Typable(AllWritten(ts)[i])
  {
    var all, cs := WithMessage(ts, name, args), AllWritten(ts);
    hide CommandWords, Fits, ActionWords, AllOperators;
    assert cs + [] == cs;
    forall i | 0 <= i < |cs| ensures ServerParser.PlainCommand(cs[i]) && Typable(cs[i]) {
      assert cs[i] == Written(ts[i]) && all[i] == ts[i];
      assert Fits(all[i], AllWritten(all)[i + 1..] + []);
      ActionOperators(ts[i], AllWritten(all)[i + 1..] + []);
      PlainIfTypable(cs[i]);
    }
  }

  // ---------- every list of commands is some list of actions in writing ----------

  lemma NumberSpells(op: string)
    requires ServerParser.IsOperator(op) && op != "|" && op != ">"
    ensures op == [op[0]] + Decimal(Number(op)) && op[0] in "|!<>" && |op| >= 2
  {
    ServerParser.NumberedSpells(op);
  }

  /** The operators of a command that is not the shell's own say which output it asks for. */
  lemma OutputInWriting(ops: seq<string>, behind: seq<ServerParser.Command>) returns (out: PipeGraph.Output, extra: seq<string>)
    requires AllOperators(ops) && (ops != [] && ops[0] == ">" ==> behind != [])
    ensures ops == OutputWords(out) + extra && FileFits(out, behind)
    ensures out.ToConsole? ==> extra == [] || (ops[0] != ">" && ops[0][0] in "<>")
    ensures ops != [] && ops[0] == ">" ==> out.ToFile?
  {
    if ops == [] {
      return PipeGraph.ToConsole, [];
    }
    var op := ops[0];
    assert ServerParser.IsOperator(op);
    if op == "|" {
      out := PipeGraph.ToNext;
    } else if op == ">" {
      out := PipeGraph.ToFile(behind[0].name);
    } else {
      NumberSpells(op);
      hide Decimal, Number, ServerParser.IsOperator;
      if op[0] == '<' || op[0] == '>' {
        return PipeGraph.ToConsole, ops;
      }
      out := PipeGraph.ToSession(Number(op), op[0] == '!');
    }
    extra := ops[1..];
    assert ops == [op] + extra;
  }

  /** `>j` and `>j <i`. */
  lemma SendInWriting(c: ServerParser.Command) returns (t: Typed)
    requires !IsOwn(c.name) && AllOperators(c.operators) && c.operators != [] && HasNumber(c.operators[0], '>')
    ensures Written(t) == c && GivesUp(t.action) && forall behind :: Fits(t, behind)
  {
    var ops := c.operators;
    assert ServerParser.IsOperator(ops[0]);
    NumberSpells(ops[0]);
    if |ops| > 1 && IsFrom(ops[1]) {
      assert ServerParser.IsOperator(ops[1]);
      NumberSpells(ops[1]);
      hide Decimal, Number, ServerParser.IsOperator, IsOwn;
      t := Typed(c.name, c.args, SendReceive(c.name, c.args, Number(ops[1]), Number(ops[0])), true, ops[2..]);
      assert ops == [ops[0], ops[1]] + ops[2..];
    } else {
      hide Decimal, Number, ServerParser.IsOperator, IsOwn;
      t := Typed(c.name, c.args, Send(c.name, c.args, Number(ops[0])), false, ops[1..]);
      assert ops == [ops[0]] + ops[1..];
    }
  }

  /** `<i` and what it is combined with. */
  lemma ReceiveInWriting(c: ServerParser.Command, behind: seq<ServerParser.Command>) returns (t: Typed)
    requires !IsOwn(c.name) && AllOperators(c.operators) && c.operators != [] && IsFrom(c.operators[0])
    ensures Written(t) == c && Fits(t, behind)
  {
    var ops := c.operators;
    assert ServerParser.IsOperator(ops[0]);
    NumberSpells(ops[0]);
    var from := Number(ops[0]);
    assert ops == [ops[0]] + ops[1..];
    if |ops| > 1 && ops[1] == ">" && behind == [] {
      t := Typed(c.name, c.args, TakeOnly(from), false, ops[2..]);
      assert ops == [ops[0], ops[1]] + ops[2..];
    } else if |ops| > 1 && HasNumber(ops[1], '>') {
      assert ServerParser.IsOperator(ops[1]);
      NumberSpells(ops[1]);
      t := Typed(c.name, c.args, SendReceive(c.name, c.args, from, Number(ops[1])), false, ops[2..]);
      assert ops == [ops[0], ops[1]] + ops[2..];
    } else {
      assert AllOperators(ops[1..]);
      assert |ops| > 1 ==> ServerParser.IsOperator(ops[1]);
      var out, extra := OutputInWriting(ops[1..], behind);
      t := Typed(c.name, c.args, Receive(c.name, c.args, from, out), false, extra);
      assert ops == [ops[0]] + OutputWords(out) + extra;
      hide Decimal, Number, IsOwn;
    }
  }

  lemma CommandInWriting(c: ServerParser.Command, behind: seq<ServerParser.Command>) returns (t: Typed)
    requires AllOperators(c.operators)
    requires behind == [] && !IsOwn(c.name) ==> c.operators == [] || c.operators[0] != ">"
    requires behind != [] && !IsOwn(c.name) ==> c.operators != []
    ensures Written(t) == c && Fits(t, behind)
  {
    var ops := c.operators;
    if IsOwn(c.name) {
      t := Typed(c.name, c.args, Own(c.name, c.args), false, ops);
      assert [] + ops == ops;
    } else if ops != [] && HasNumber(ops[0], '>') {
      t := SendInWriting(c);
    } else if ops != [] && IsFrom(ops[0]) {
      t := ReceiveInWriting(c, behind);
    } else {
      assert ops != [] ==> ServerParser.IsOperator(ops[0]);
      var out, extra := OutputInWriting(ops, behind);
      t := Typed(c.name, c.args, Plain(c.name, c.args, out), false, extra);
      hide Decimal, Number, IsOwn;
    }
  }

  /** Every list of commands in which an operator stands behind each command but the last is such a list of
      actions in writing: no line is left out. */
  lemma EveryLineInWriting(cs: seq<ServerParser.Command>) returns (ts: seq<Typed>, more: seq<ServerParser.Command>)
    requires forall i | 0 <= i < |cs| :: AllOperators(cs[i].operators)
    requires forall i | 0 <= i < |cs| - 1 :: cs[i].operators != []
    ensures AllFit(ts, more) && AllWritten(ts) + more == cs
    decreases |cs|
  {
    hide Written, Fits, GivesUp, IsOwn, AllOperators;
    ts, more := [], cs;
    if cs != [] {
      var c := cs[0];
      if !(|cs| == 1 && !IsOwn(c.name) && c.operators != [] && c.operators[0] == ">") {
        var t := CommandInWriting(c, cs[1..]);
        assert Idle([], []);
        if GivesUp(t.action) {
          ts, more := [], cs[1..];
          assert AllWritten([]) + cs[1..] == cs[1..];
        } else {
          ts, more := EveryLineInWriting(cs[1..]);
        }
        OneMoreWritten(t, ts, more);
        ts := [t] + ts;
      }
    }
  }

  lemma OneMoreWritten(t: Typed, ts: seq<Typed>, more: seq<ServerParser.Command>)
    requires Fits(t, AllWritten(ts) + more) && (if GivesUp(t.action) then ts == [] else AllFit(ts, more))
    ensures AllFit([t] + ts, more) && AllWritten([t] + ts) == [Written(t)] + AllWritten(ts)
  {
    hide Written, Fits, GivesUp, IsOwn;
    var all := [t] + ts;
    assert AllWritten(all)[1..] == AllWritten(ts);
    forall i | 0 <= i < |all| ensures Fits(all[i], AllWritten(all)[i + 1..] + more) {
      if i > 0 {
        assert all[i] == ts[i - 1] && AllWritten(all)[i + 1..] == AllWritten(ts)[i..];
      }
    }
    forall i | 0 <= i < |all| - 1 ensures !GivesUp(all[i].action) {
      if i > 0 { assert all[i] == ts[i - 1]; }
    }
  }

  // ---------- one command ----------

  function WordsOf(t: Typed): seq<string> {
    [t.name] + t.args + (ActionWords(t.action, t.swapped) + t.extra)
  }

  lemma OneTyped(t: Typed, text: string)
    requires CommandWords(t.name, t.args) && AllOperators(t.extra) && Fits(t, [])
    requires Tokens(text) == WordsOf(t) || text == Join(WordsOf(t))
    ensures ActionsOfText(text) == [t.action]
  {
    hide ActionsOfText, CommandWords, AllOperators, Fits, Tokens;
    assert AllWritten([t]) == [Written(t)];
    var cs := AllWritten([t]) + [];
    assert cs == [Written(t)] && cs[1..] == [] && AllWritten([t])[1..] + [] == [];
    assert Typeable([t], []) && AllFit([t], []);
    assert ServerParser.Flatten(cs) == WordsOf(t) by {
      assert ServerParser.Flatten([]) == [];
      hide ActionWords;
    }
    JoinedTokens([t], []);
    TypedActions([t], [], text);
    assert Actions([t]) == [t.action];
  }

  /** A command may take the pipe from one user and send to another; the two operators may stand in either order,
      and `<` is always the user it reads from. */
  lemma ReadAndSend(name: string, args: seq<string>, from: nat, to: nat, text: string)
    requires CommandWords(name, args) && !IsOwn(name) && from >= 1 && to >= 1
    requires || Tokens(text) == [name] + args + ["<" + Decimal(from), ">" + Decimal(to)]
             || Tokens(text) == [name] + args + [">" + Decimal(to), "<" + Decimal(from)]
    ensures ActionsOfText(text) == [SendReceive(name, args, from, to)]
  {
    hide ActionsOfText, CommandWords, IsOwn, Tokens;
    var a := SendReceive(name, args, from, to);
    assert ActionWords(a, false) + [] == ["<" + Decimal(from), ">" + Decimal(to)];
    assert ActionWords(a, true) + [] == [">" + Decimal(to), "<" + Decimal(from)];
    if Tokens(text) == [name] + args + ["<" + Decimal(from), ">" + Decimal(to)] {
      OneTyped(Typed(name, args, a, false, []), text);
    } else {
      OneTyped(Typed(name, args, a, true, []), text);
    }
  }
}
