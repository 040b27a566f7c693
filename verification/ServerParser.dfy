/** The command-line parser of the servers: a command may carry several operators, and `yell` and `tell`
    take the rest of the line as it is. */
module ServerParser {
  import opened Text

  datatype Command = Command(name: string, args: seq<string>, operators: seq<string>)

  /** `|`, `>`, `|N`, `!N`, `<N` and `>N`, where N is a positive decimal number. */
  predicate IsOperator(t: string) {
    t == "|" || t == ">" || IsNumbered(t)
  }

  predicate IsNumbered(t: string) {
    |t| >= 2 && t[0] in "|!<>" && '1' <= t[1] <= '9' && AllDigits(t[1..])
  }

  /** Commands whose last argument is the rest of the line. */
  predicate IsRawCommand(t: string) {
    t == "yell" || t == "tell"
  }

  /** The locals of the token loop: `command`, `newCommand.command`, `args`, `operators` and the result. */
  datatype State = State(command: string, name: string, args: seq<string>, operators: seq<string>, done: seq<Command>)

  const START := State("", "", [], [], [])

  function Push(st: State): State {
    if st.name == "" then st
    else State(st.command, "", [], [], st.done + [Command(st.name, st.args, st.operators)])
  }

  /** A token in an ordinary place. */
  function Take(st: State, token: string): State {
    if IsOperator(token) then st.(operators := st.operators + [token], command := "")
    else if st.command == "" then Push(st).(command := token, name := token)
    else st.(args := st.args + [token])
  }

  /** The text after the line that `getline` takes. */
  function AfterLine(s: string): (r: string)
    ensures |r| <= |s|
    ensures OneLine(s) ==> r == ""
  {
    var l := Line(s);
    if |l| < |s| then s[|l| + 1..]
    else ""
  }

  /** The arguments of `yell` and `tell`, and what is left of the text. */
  function RawArgs(name: string, after: string): (r: (seq<string>, string))
    ensures |r.1| <= |after|
  {
    var s := SkipSpace(after);
    if name == "tell" then
      var s2 := SkipSpace(AfterWord(s));
      ([Word(s), Line(s2)], AfterLine(s2))
    else
      ([Line(s)], AfterLine(s))
  }

  function Loop(rest: string, st: State): seq<Command>
    decreases |rest|
  {
    var t := SkipSpace(rest);
    if t == "" then Push(st).done
    else
      var token, after := Word(t), AfterWord(t);
      var st' := Take(st, token);
      if !IsOperator(token) && st.command == "" && IsRawCommand(token) then
        var raw := RawArgs(token, after);
        Loop(raw.1, st'.(args := st'.args + raw.0))
      else
        Loop(after, st')
  }

  function ParseLine(line: string): seq<Command> {
    Loop(line, START)
  }

  method Parse(line: string) returns (commands: seq<Command>)
    ensures commands == ParseLine(line)
  {
    var rest := line;
    var command, name, args, operators: seq<string> := "", "", [], [];
    commands := [];
    while true
      invariant Loop(rest, State(command, name, args, operators, commands)) == ParseLine(line)
      decreases |rest|
    {
      rest := SkipSpace(rest);
      if rest == "" {
        break;
      }
      var token := Word(rest);
      rest := AfterWord(rest);
      if IsOperator(token) {
        operators := operators + [token];
        command := "";
      } else if command == "" {
        if name != "" {
          commands := commands + [Command(name, args, operators)];
          args, operators := [], [];
        }
        command, name := token, token;
        if IsRawCommand(token) {
          var raw := RawArgs(token, rest);
          args := args + raw.0;
          rest := raw.1;
        }
      } else {
        args := args + [token];
      }
    }
    if name != "" {
      commands := commands + [Command(name, args, operators)];
    }
  }

  // ---------- lines without yell and tell ----------

  function Fold(ts: seq<string>, st: State): seq<Command> {
    if ts == [] then Push(st).done else Fold(ts[1..], Take(st, ts[0]))
  }

  predicate Ordinary(ts: seq<string>) {
    forall i | 0 <= i < |ts| :: ts[i] != "" && !IsRawCommand(ts[i])
  }

  lemma OrdinaryRest(ts: seq<string>)
    requires Ordinary(ts) && ts != []
    ensures Ordinary(ts[1..])
  {
    forall i | 0 <= i < |ts[1..]| ensures ts[1..][i] != "" && !IsRawCommand(ts[1..][i]) { assert ts[i + 1] == ts[1..][i]; }
  }

  lemma {:induction false} LoopIsFold(rest: string, st: State)
    requires Ordinary(Tokens(rest))
    ensures Loop(rest, st) == Fold(Tokens(rest), st)
    decreases |rest|
  {
    var t := SkipSpace(rest);
    if t != "" {
      var ts := Tokens(rest);
      assert ts[0] == Word(t) && ts[1..] == Tokens(AfterWord(t));
      OrdinaryRest(ts);
      LoopIsFold(AfterWord(t), Take(st, Word(t)));
    }
  }

  /** The tokens a command list stands for: name, arguments, operators. */
  function Flatten(cs: seq<Command>): seq<string> {
    if cs == [] then [] else [cs[0].name] + cs[0].args + cs[0].operators + Flatten(cs[1..])
  }

  lemma {:induction false} FlattenAppend(a: seq<Command>, c: Command)
    ensures Flatten(a + [c]) == Flatten(a) + ([c.name] + c.args + c.operators)
  {
    if a == [] {
      assert a + [c] == [c] && [c][1..] == [];
    } else {
      assert (a + [c])[1..] == a[1..] + [c];
      FlattenAppend(a[1..], c);
    }
  }

  predicate PlainWord(w: string) {
    w != "" && !IsOperator(w) && !IsRawCommand(w)
  }

  predicate IsArgument(w: string) {
    w != "" && !IsOperator(w)
  }

  ghost predicate PlainCommand(c: Command) {
    && PlainWord(c.name)
    && (forall i | 0 <= i < |c.args| :: IsArgument(c.args[i]))
    && (forall i | 0 <= i < |c.operators| :: IsOperator(c.operators[i]))
  }

  /** Every command but the last is ended by an operator. */
  ghost predicate WellFormed(cs: seq<Command>) {
    && (forall i | 0 <= i < |cs| :: PlainCommand(cs[i]))
    && (forall i | 0 <= i < |cs| - 1 :: cs[i].operators != [])
  }

  /** The state after some tokens; `yell` and `tell` take no part of the line here. */
  function TakeAll(ts: seq<string>, st: State): State
    decreases |ts|
  {
    if ts == [] then st else TakeAll(ts[1..], Take(st, ts[0]))
  }

  /** None of the tokens is `yell` or `tell` in the place of a command. */
  predicate Calm(ts: seq<string>, st: State)
    decreases |ts|
  {
    ts == [] || (!(st.command == "" && IsRawCommand(ts[0])) && Calm(ts[1..], Take(st, ts[0])))
  }

  lemma {:induction false} TakeAppend(a: seq<string>, b: seq<string>, st: State)
    ensures TakeAll(a + b, st) == TakeAll(b, TakeAll(a, st))
    ensures Calm(a + b, st) <==> Calm(a, st) && Calm(b, TakeAll(a, st))
    decreases |a|
  {
    hide Take, IsRawCommand;
    if a == [] {
      assert a + b == b;
    } else {
      assert (a + b)[1..] == a[1..] + b;
      TakeAppend(a[1..], b, Take(st, a[0]));
    }
  }

  /** One more word in front of the rest of the line. */
  lemma LoopWord(w: string, rest: string, st: State)
    requires IsWord(w) && Separated(rest) && !(st.command == "" && IsRawCommand(w))
    ensures Loop(w + rest, st) == Loop(rest, Take(st, w))
    ensures Loop(" " + (w + rest), st) == Loop(rest, Take(st, w))
  {
    ReadBack(w, rest);
    hide Take, IsRawCommand, IsOperator, RawArgs, Word, AfterWord, SkipSpace;
  }

  /** The loop on joined words, with more of the line behind them. */
  lemma {:induction false} LoopJoin(ts: seq<string>, rest: string, st: State)
    requires ts != [] && (forall i | 0 <= i < |ts| :: IsWord(ts[i])) && Separated(rest) && Calm(ts, st)
    ensures Loop(Join(ts) + rest, st) == Loop(rest, TakeAll(ts, st))
    ensures Loop(" " + (Join(ts) + rest), st) == Loop(rest, TakeAll(ts, st))
    decreases |ts|
  {
    hide Loop, Take, IsRawCommand, IsWord;
    if |ts| == 1 {
      assert ts[1..] == [];
      LoopWord(ts[0], rest, st);
    } else {
      var tail := " " + (Join(ts[1..]) + rest);
      assert Join(ts) + rest == ts[0] + tail;
      LoopWord(ts[0], tail, st);
      LoopJoin(ts[1..], rest, Take(st, ts[0]));
    }
  }

  lemma TakeArg(st: State, w: string)
    requires st.command != "" && IsArgument(w)
    ensures Take(st, w) == st.(args := st.args + [w])
  {
    hide IsNumbered;
  }

  lemma {:induction false} TakeArgs(args: seq<string>, st: State)
    requires st.command != "" && forall i | 0 <= i < |args| :: IsArgument(args[i])
    ensures TakeAll(args, st) == st.(args := st.args + args) && Calm(args, st)
    decreases |args|
  {
    if args == [] {
      assert st.args + args == st.args;
    } else {
      TakeArg(st, args[0]);
      hide Take, IsRawCommand, IsArgument;
      TakeArgs(args[1..], Take(st, args[0]));
      assert st.args + [args[0]] + args[1..] == st.args + args;
    }
  }

  lemma TakeOperator(st: State, op: string)
    requires IsOperator(op)
    ensures Take(st, op) == st.(operators := st.operators + [op], command := "") && !IsRawCommand(op)
  {
  }

  lemma {:induction false} TakeOperators(ops: seq<string>, st: State)
    requires forall i | 0 <= i < |ops| :: IsOperator(ops[i])
    ensures TakeAll(ops, st) == st.(operators := st.operators + ops, command := if ops == [] then st.command else "")
    ensures Calm(ops, st)
    decreases |ops|
  {
    if ops == [] {
      assert st.operators + ops == st.operators;
    } else {
      assert IsOperator(ops[0]);
      TakeOperator(st, ops[0]);
      hide Take, IsOperator;
      TakeOperators(ops[1..], Take(st, ops[0]));
      assert st.operators + [ops[0]] + ops[1..] == st.operators + ops;
    }
  }

  /** What a state is after a command read where one is expected; operators that came before any command are put
      in front of its own. */
  function Began(c: Command, st: State): State {
    var ops := if st.name == "" then st.operators + c.operators else c.operators;
    State(if c.operators == [] then c.name else "", c.name, c.args, ops, Push(st).done)
  }

  lemma TakeName(name: string, st: State)
    requires PlainWord(name) && st.command == "" && (st.name == "" ==> st.args == [])
    ensures TakeAll([name], st) == State(name, name, [], if st.name == "" then st.operators else [], Push(st).done)
    ensures Calm([name], st)
  {
    assert [name][1..] == [];
    hide IsNumbered, IsRawCommand;
  }

  lemma TakeCommand(c: Command, st: State)
    requires PlainCommand(c) && st.command == "" && (st.name == "" ==> st.args == [])
    ensures TakeAll([c.name] + c.args + c.operators, st) == Began(c, st)
    ensures Calm([c.name] + c.args + c.operators, st)
  {
    var st1 := State(c.name, c.name, [], if st.name == "" then st.operators else [], Push(st).done);
    var st2 := st1.(args := c.args);
    PlainParts(c);
    hide TakeAll, Calm, PlainCommand, IsArgument, IsOperator;
    TakeName(c.name, st);
    TakeArgs(c.args, st1);
    assert [] + c.args == c.args;
    assert TakeAll(c.args, st1) == st2;
    TakeOperators(c.operators, st2);
    TakeAppend([c.name], c.args, st);
    TakeAppend([c.name] + c.args, c.operators, st);
    BeganIs(c, st, st2);
  }

  lemma PlainParts(c: Command)
    requires PlainCommand(c)
    ensures PlainWord(c.name) && c.name != ""
    ensures forall i | 0 <= i < |c.args| :: IsArgument(c.args[i])
    ensures forall i | 0 <= i < |c.operators| :: IsOperator(c.operators[i])
  {
  }

  lemma BeganIs(c: Command, st: State, st2: State)
    requires st2 == State(c.name, c.name, c.args, if st.name == "" then st.operators else [], Push(st).done)
    ensures Began(c, st)
         == st2.(operators := st2.operators + c.operators, command := if c.operators == [] then st2.command else "")
  {
    assert [] + c.operators == c.operators;
  }

  lemma WellFormedRest(cs: seq<Command>)
    requires WellFormed(cs) && cs != []
    ensures PlainCommand(cs[0]) && WellFormed(cs[1..]) && (|cs| > 1 ==> cs[0].operators != [])
  {
    forall i | 0 <= i < |cs[1..]| ensures PlainCommand(cs[1..][i]) { assert PlainCommand(cs[i + 1]); }
    forall i | 0 <= i < |cs[1..]| - 1 ensures cs[1..][i].operators != [] { assert cs[i + 1].operators != []; }
  }

  lemma PushBegan(c: Command, st: State)
    requires c.name != "" && c.operators != []
    ensures var b := Began(c, st);
            && b.command == "" && b.name != ""
            && Push(b).done == Push(st).done + [c.(operators := if st.name == "" then st.operators + c.operators else c.operators)]
  {
  }

  lemma FirstBack(done: seq<Command>, cs: seq<Command>)
    requires cs != []
    ensures done + [cs[0].(operators := cs[0].operators)] + cs[1..] == done + cs
    ensures [cs[0].(operators := [] + cs[0].operators)] + cs[1..] == cs
  {
    assert [] + cs[0].operators == cs[0].operators;
  }

  /** The tokens of a well-formed list, taken one after the other, leave its last command in the making. */
  lemma {:induction false} TakeFlatten(cs: seq<Command>, st: State)
    requires WellFormed(cs) && cs != [] && st.command == "" && (st.name == "" ==> st.args == [])
    ensures Calm(Flatten(cs), st)
    ensures var st' := TakeAll(Flatten(cs), st);
            var first := cs[0].(operators := if st.name == "" then st.operators + cs[0].operators else cs[0].operators);
            && Push(st').done == Push(st).done + [first] + cs[1..]
            && st'.name != "" && st'.command == if cs[|cs| - 1].operators == [] then cs[|cs| - 1].name else ""
    decreases |cs|
  {
    hide Take, TakeAll, Calm, WellFormed, PlainCommand;
    var c := cs[0];
    WellFormedRest(cs);
    NamedCommand(c);
    TakeCommand(c, st);
    var own := [c.name] + c.args + c.operators;
    TakeAppend(own, Flatten(cs[1..]), st);
    if |cs| == 1 {
      assert cs[1..] == [] && own + [] == own;
    } else {
      var first := c.(operators := if st.name == "" then st.operators + c.operators else c.operators);
      PushBegan(c, st);
      hide Push, Began;
      TakeFlatten(cs[1..], Began(c, st));
      FirstBack(Push(st).done + [first], cs[1..]);
    }
  }

  lemma NamedCommand(c: Command)
    requires PlainCommand(c)
    ensures c.name != ""
  {
  }

  /** A line in which nothing is read as it stands is its words, whatever is between them. */
  lemma {:induction false} LoopTakes(rest: string, st: State)
    requires Calm(Tokens(rest), st)
    ensures Loop(rest, st) == Push(TakeAll(Tokens(rest), st)).done
    decreases |rest|
  {
    hide Take, Push, IsRawCommand, IsOperator, RawArgs;
    var t := SkipSpace(rest);
    if t != "" {
      var ts := Tokens(rest);
      assert ts[0] == Word(t) && ts[1..] == Tokens(AfterWord(t));
      LoopTakes(AfterWord(t), Take(st, Word(t)));
    }
  }

  /** Operators at the very beginning of a line go to the first command, in front of its own. */
  lemma LeadingOperatorsMove(lead: seq<string>, cs: seq<Command>, line: string)
    requires WellFormed(cs) && cs != [] && (forall i | 0 <= i < |lead| :: IsOperator(lead[i]))
    requires Tokens(line) == lead + Flatten(cs)
    ensures ParseLine(line) == [cs[0].(operators := lead + cs[0].operators)] + cs[1..]
  {
    hide Loop, Tokens, Flatten, TakeAll, Calm, WellFormed, IsOperator;
    var st := State("", "", [], lead, []);
    assert [] + lead == lead;
    TakeOperators(lead, START);
    assert TakeAll(lead, START) == st;
    TakeFlatten(cs, st);
    TakeAppend(lead, Flatten(cs), START);
    LoopTakes(line, START);
    NothingBefore([cs[0].(operators := lead + cs[0].operators)] + cs[1..]);
    Assoc([], [cs[0].(operators := lead + cs[0].operators)], cs[1..]);
  }

  lemma NothingBefore(cs: seq<Command>)
    ensures [] + cs == cs
  {
  }

  lemma NoWords(line: string)
    requires Tokens(line) == []
    ensures ParseLine(line) == []
  {
  }

  /** Round trip: every line whose words are those of a well-formed command list parses to that list. */
  lemma ParseWords(cs: seq<Command>, line: string)
    requires WellFormed(cs) && Tokens(line) == Flatten(cs)
    ensures ParseLine(line) == cs
  {
    if cs == [] {
      NoWords(line);
    } else {
      hide ParseLine, Tokens, Flatten, WellFormed;
      assert [] + Flatten(cs) == Flatten(cs);
      LeadingOperatorsMove([], cs, line);
      FirstBack([], cs);
    }
  }

  /** In particular the one with single spaces between them. */
  lemma ParseJoin(cs: seq<Command>)
    requires WellFormed(cs) && forall i | 0 <= i < |Flatten(cs)| :: IsWord(Flatten(cs)[i])
    ensures ParseLine(Join(Flatten(cs))) == cs
  {
    hide ParseLine, WellFormed, IsWord;
    TokensOfJoin(Flatten(cs));
    ParseWords(cs, Join(Flatten(cs)));
  }

  // ---------- what is an operator ----------

  predicate Spells(t: string, c: char, n: nat) {
    c in "|!<>" && n >= 1 && t == [c] + Decimal(n)
  }

  lemma SpellsNumbered(t: string, c: char, n: nat)
    requires Spells(t, c, n)
    ensures IsNumbered(t) && IsWord(t) && Value(t[1..]) == n && t[0] == c
  {
    ValueOfDecimal(n);
    assert t[1..] == Decimal(n);
    assert IsDigit(Decimal(n)[0]);
    assert forall i | 0 <= i < |Decimal(n)| :: IsDigit(Decimal(n)[i]);
    hide Decimal, Value;
  }

  lemma NumberedSpells(t: string)
    requires IsNumbered(t)
    ensures Spells(t, t[0], Value(t[1..]))
  {
    DecimalOfValue(t[1..]);
  }

  /** The operators are `|`, `>`, and one of `|`, `!`, `<`, `>` with the decimal of a positive number. */
  lemma OperatorIff(t: string)
    ensures IsOperator(t) <==> t == "|" || t == ">" || exists c: char, n: nat :: Spells(t, c, n)
  {
    if IsNumbered(t) {
      NumberedSpells(t);
    }
    if c: char, n: nat :| Spells(t, c, n) {
      SpellsNumbered(t, c, n);
    }
  }

  // ---------- conservation ----------

  /** The tokens a state has taken, in order, when operators came last. */
  function Taken(st: State): seq<string> {
    Flatten(st.done) + (if st.name == "" then [] else [st.name] + st.args + st.operators)
  }

  predicate Orderly(st: State) {
    && (st.command != "" ==> st.name == st.command && st.operators == [])
    && (st.name == "" ==> st.args == [] && st.operators == [])
  }

  lemma TakeKeeps(st: State, token: string)
    requires Orderly(st) && token != "" && (IsOperator(token) ==> st.name != "")
    ensures Orderly(Take(st, token)) && Take(st, token).name != ""
    ensures Taken(Take(st, token)) == Taken(st) + [token]
  {
    hide Flatten, IsNumbered;
    FlattenAppend(st.done, Command(st.name, st.args, st.operators));
    if IsOperator(token) {
      assert [st.name] + st.args + (st.operators + [token]) == [st.name] + st.args + st.operators + [token];
    } else if st.command != "" {
      assert st.operators == [];
      assert [st.name] + (st.args + [token]) + [] == [st.name] + st.args + [] + [token];
    }
  }

  lemma {:induction false} FoldConserves(ts: seq<string>, st: State)
    requires Orderly(st) && Ordinary(ts) && (ts != [] && IsOperator(ts[0]) ==> st.name != "")
    ensures Flatten(Fold(ts, st)) == Taken(st) + ts
  {
    if ts == [] {
      FlattenAppend(st.done, Command(st.name, st.args, st.operators));
      hide Flatten;
    } else {
      TakeKeeps(st, ts[0]);
      OrdinaryRest(ts);
      hide Flatten, Take, Taken, Orderly, IsOperator, IsRawCommand;
      FoldConserves(ts[1..], Take(st, ts[0]));
      Assoc(Taken(st), [ts[0]], ts[1..]);
      assert ts == [ts[0]] + ts[1..];
    }
  }

  predicate NoOperatorNames(cs: seq<Command>) {
    forall i | 0 <= i < |cs| :: !IsOperator(cs[i].name)
  }

  lemma {:induction false} FoldNames(ts: seq<string>, st: State)
    requires NoOperatorNames(st.done) && !IsOperator(st.name)
    ensures NoOperatorNames(Fold(ts, st))
  {
    if ts != [] {
      FoldNames(ts[1..], Take(st, ts[0]));
    }
  }

  /** Conservation: the parse of an ordinary line keeps every token in its place exactly when the line does
      not begin with an operator. A leading operator is moved behind the command that follows it. */
  lemma ConservesIff(line: string)
    requires Ordinary(Tokens(line))
    ensures Flatten(ParseLine(line)) == Tokens(line) <==> Tokens(line) == [] || !IsOperator(Tokens(line)[0])
  {
    var ts := Tokens(line);
    LoopIsFold(line, START);
    if ts == [] || !IsOperator(ts[0]) {
      FoldConserves(ts, START);
    } else {
      FoldNames(ts, START);
      var cs := Fold(ts, START);
      if cs != [] {
        assert Flatten(cs)[0] == cs[0].name;
      }
    }
  }

  // ---------- yell and tell ----------

  predicate NoRawNames(cs: seq<Command>) {
    forall i | 0 <= i < |cs| :: !IsRawCommand(cs[i].name)
  }

  lemma OneLineSuffix(s: string, k: nat)
    requires OneLine(s) && k <= |s|
    ensures OneLine(s[k..])
  {
  }

  lemma {:induction false} SkipSpaceSuffix(s: string)
    ensures SkipSpace(s) == s[|s| - |SkipSpace(s)|..]
  {
    if s != "" && IsSpace(s[0]) {
      SkipSpaceSuffix(s[1..]);
    }
  }

  predicate EndsWith(s: string, end: string) {
    |end| <= |s| && s[|s| - |end|..] == end
  }

  lemma WholeLine(s: string)
    requires OneLine(s)
    ensures Line(s) == s && AfterLine(s) == ""
  {
    assert forall i | 0 <= i < |s| :: s[i] in s;
  }

  lemma RawTakesAll(name: string, after: string)
    requires OneLine(after)
    ensures RawArgs(name, after).1 == "" && RawArgs(name, after).0 != []
    ensures var raw := RawArgs(name, after).0; EndsWith(after, raw[|raw| - 1])
  {
    hide OneLine, EndsWith, SkipSpace, AfterWord, Line, AfterLine;
    RestAsTyped(after);
    WholeEnds(after);
    AfterToken(after, after);
    var behind := AfterWord(SkipSpace(after));
    RestAsTyped(behind);
    EndsWithin(after, behind, Line(SkipSpace(behind)));
  }

  lemma WholeEnds(s: string)
    ensures EndsWith(s, s)
  {
  }

  /** The rest of a line, as `getline` takes it behind whitespace. */
  lemma RestAsTyped(s: string)
    requires OneLine(s)
    ensures EndsWith(s, Line(SkipSpace(s))) && AfterLine(SkipSpace(s)) == ""
  {
    SkipSpaceSuffix(s);
    OneLineSuffix(s, |s| - |SkipSpace(s)|);
    WholeLine(SkipSpace(s));
    hide SkipSpace, Line, OneLine, AfterLine;
  }

  /** A result in which only the last command can be `yell` or `tell`, followed by nothing that was parsed:
      no command, no operator, and an argument that is the end of the line as typed. */
  ghost predicate RawIsLast(cs: seq<Command>, line: string, ops: seq<string>) {
    cs == [] ||
    var last := cs[|cs| - 1];
    && NoRawNames(cs[..|cs| - 1])
    && (IsRawCommand(last.name) ==>
          last.args != [] && EndsWith(line, last.args[|last.args| - 1])
          && last.operators == if |cs| == 1 then ops else [])
  }

  /** The operators at the very beginning of a line. */
  function LeadingOperators(rest: string): seq<string>
    decreases |rest|
  {
    var t := SkipSpace(rest);
    if t == "" || !IsOperator(Word(t)) then [] else [Word(t)] + LeadingOperators(AfterWord(t))
  }

  /** The command being collected comes right after the finished ones. */
  lemma {:induction false} LoopKeepsName(rest: string, st: State)
    requires st.name != ""
    ensures |Loop(rest, st)| > |st.done| && Loop(rest, st)[..|st.done|] == st.done
    ensures Loop(rest, st)[|st.done|].name == st.name
    decreases |rest|
  {
    var t := SkipSpace(rest);
    if t != "" {
      var token, after := Word(t), AfterWord(t);
      var st1 := Take(st, token);
      if !IsOperator(token) && st.command == "" && IsRawCommand(token) {
        var raw := RawArgs(token, after);
        LoopKeepsName(raw.1, st1.(args := st1.args + raw.0));
      } else {
        LoopKeepsName(after, st1);
      }
      var cs := Loop(rest, st);
      if st1.name != st.name || st1.done != st.done {
        assert st1.done == st.done + [Command(st.name, st.args, st.operators)];
        assert cs[..|st1.done|][|st.done|] == st1.done[|st.done|];
        assert cs[..|st.done|] == cs[..|st1.done|][..|st.done|];
      }
    }
  }

  lemma EndsWithin(a: string, b: string, c: string)
    requires EndsWith(a, b) && EndsWith(b, c)
    ensures EndsWith(a, c)
  {
    assert b[|b| - |c|..] == a[|a| - |b|..][|b| - |c|..];
  }

  lemma RawIsLastOf(done: seq<Command>, last: Command, line: string, ops: seq<string>)
    requires NoRawNames(done)
    requires last.args != [] && EndsWith(line, last.args[|last.args| - 1])
    requires last.operators == if done == [] then ops else []
    ensures RawIsLast(done + [last], line, ops)
  {
    assert (done + [last])[..|done|] == done;
  }

  /** What follows a token is still one line, and still the end of the whole line. */
  lemma AfterToken(rest: string, line: string)
    requires OneLine(rest) && EndsWith(line, rest)
    ensures OneLine(AfterWord(SkipSpace(rest))) && EndsWith(line, AfterWord(SkipSpace(rest)))
  {
    SkipSpaceSuffix(rest);
    var t := SkipSpace(rest);
    OneLineSuffix(rest, |rest| - |t|);
    OneLineSuffix(t, |Word(t)|);
    EndsWithin(line, rest, t);
    EndsWithin(line, t, AfterWord(t));
  }

  /** `yell` or `tell` read as a command: the parse ends with it. */
  lemma RawStep(rest: string, st: State, line: string)
    requires OneLine(rest) && EndsWith(line, rest) && SkipSpace(rest) != ""
    requires NoRawNames(st.done) && !IsRawCommand(st.name) && (st.name == "" ==> st.args == [] && st.done == [])
    requires st.command == "" && IsRawCommand(Word(SkipSpace(rest))) && !IsOperator(Word(SkipSpace(rest)))
    ensures RawIsLast(Loop(rest, st), line, if st.name == "" then st.operators else [])
  {
    hide OneLine, EndsWith, RawArgs, RawIsLast, IsNumbered;
    AfterToken(rest, line);
    var token, after := Word(SkipSpace(rest)), AfterWord(SkipSpace(rest));
    RawTakesAll(token, after);
    var raw := RawArgs(token, after).0;
    EndsWithin(line, after, raw[|raw| - 1]);
    var st1 := Take(st, token);
    assert [] + raw == raw;
    RawIsLastOf(st1.done, Command(token, raw, st1.operators), line, if st.name == "" then st.operators else []);
    assert Loop("", st1.(args := raw)) == st1.done + [Command(token, raw, st1.operators)];
  }

  lemma RawIsLastAny(cs: seq<Command>, line: string, ops: seq<string>, ops': seq<string>)
    requires RawIsLast(cs, line, ops) && (|cs| == 1 ==> !IsRawCommand(cs[0].name))
    ensures RawIsLast(cs, line, ops')
  {
  }

  /** A collected command that is not `yell` or `tell`, or nothing collected yet. */
  predicate NoRawYet(st: State) {
    NoRawNames(st.done) && !IsRawCommand(st.name)
    && (st.name == "" ==> st.command == "" && st.args == [] && st.done == [])
  }

  /** An operator token: the loop goes on with it. */
  lemma OperatorStep(rest: string, st: State)
    requires SkipSpace(rest) != "" && IsOperator(Word(SkipSpace(rest))) && NoRawYet(st)
    ensures var token, after, st1 := Word(SkipSpace(rest)), AfterWord(SkipSpace(rest)), Take(st, Word(SkipSpace(rest)));
            && Loop(rest, st) == Loop(after, st1) && LeadingOperators(rest) == [token] + LeadingOperators(after)
            && NoRawYet(st1) && st1.name == st.name && st1.operators == st.operators + [token]
  {
  }

  /** A word that is neither an operator nor `yell` or `tell` in the place of a command. */
  lemma WordStep(rest: string, st: State)
    requires SkipSpace(rest) != "" && !IsOperator(Word(SkipSpace(rest))) && NoRawYet(st)
    requires !(st.command == "" && IsRawCommand(Word(SkipSpace(rest))))
    ensures var after, st1 := AfterWord(SkipSpace(rest)), Take(st, Word(SkipSpace(rest)));
            && Loop(rest, st) == Loop(after, st1) && LeadingOperators(rest) == []
            && NoRawYet(st1) && st1.name != ""
            && (st.name == "" ==> st1.done == [] && st1.operators == st.operators)
  {
  }

  lemma NothingLeft(rest: string, st: State, line: string)
    requires SkipSpace(rest) == "" && NoRawYet(st)
    ensures LeadingOperators(rest) == []
    ensures RawIsLast(Loop(rest, st), line, if st.name == "" then st.operators + LeadingOperators(rest) else [])
  {
  }

  lemma {:induction false} LoopRawLast(rest: string, st: State, line: string)
    requires OneLine(rest) && EndsWith(line, rest) && NoRawYet(st)
    ensures RawIsLast(Loop(rest, st), line, if st.name == "" then st.operators + LeadingOperators(rest) else [])
    decreases |rest|
  {
    hide Loop, Take, LeadingOperators, OneLine, EndsWith, RawIsLast, IsOperator, IsRawCommand, NoRawNames;
    if SkipSpace(rest) == "" {
      NothingLeft(rest, st, line);
    } else {
      AfterToken(rest, line);
      var token, after := Word(SkipSpace(rest)), AfterWord(SkipSpace(rest));
      var st1 := Take(st, token);
      if IsOperator(token) {
        OperatorStep(rest, st);
        LoopRawLast(after, st1, line);
        Assoc(st.operators, [token], LeadingOperators(after));
      } else if st.command == "" && IsRawCommand(token) {
        RawStep(rest, st, line);
        NoOperatorHere(rest);
        assert st.operators + [] == st.operators;
      } else {
        WordStep(rest, st);
        LoopRawLast(after, st1, line);
        LoopKeepsName(after, st1);
        if st.name == "" {
          RawIsLastAny(Loop(after, st1), line, [], st.operators);
          assert st.operators + [] == st.operators;
        }
      }
    }
  }

  lemma NoOperatorHere(rest: string)
    requires SkipSpace(rest) != "" && !IsOperator(Word(SkipSpace(rest)))
    ensures LeadingOperators(rest) == []
  {
  }

  /** On every line without a newline, `yell` and `tell` end the parse. */
  lemma RawCommandEndsParse(line: string)
    requires OneLine(line)
    ensures RawIsLast(ParseLine(line), line, LeadingOperators(line))
  {
    LoopRawLast(line, START, line);
    assert [] + LeadingOperators(line) == LeadingOperators(line);
  }

  // ---------- the words of a command ----------

  /** A word that is no operator. */
  predicate IsItem(w: string) {
    IsWord(w) && !IsOperator(w)
  }

  predicate AllItems(ws: seq<string>) {
    forall i | 0 <= i < |ws| :: IsItem(ws[i])
  }

  /** A command's name is such a word, and so are its arguments unless it takes a line as it was typed. */
  predicate Worded(c: Command) {
    IsItem(c.name) && (IsRawCommand(c.name) || AllItems(c.args))
  }

  predicate WordedSoFar(st: State) {
    && (forall i | 0 <= i < |st.done| :: Worded(st.done[i]))
    && (if st.name == "" then st.args == [] && st.command == "" else Worded(Command(st.name, st.args, st.operators)))
  }

  lemma TakeWorded(st: State, token: string)
    requires WordedSoFar(st) && IsWord(token)
    ensures WordedSoFar(Take(st, token))
    ensures !IsOperator(token) && st.command == "" ==> Take(st, token).name == token
  {
    hide IsNumbered, IsWord, IsRawCommand;
  }

  lemma {:induction false} LoopWorded(rest: string, st: State)
    requires WordedSoFar(st)
    ensures forall i | 0 <= i < |Loop(rest, st)| :: Worded(Loop(rest, st)[i])
    decreases |rest|
  {
    hide WordedSoFar, Take, IsOperator, RawArgs;
    var t := SkipSpace(rest);
    if t == "" {
      PushWorded(st);
    } else {
      var token, after := Word(t), AfterWord(t);
      var st' := Take(st, token);
      TakeWorded(st, token);
      if !IsOperator(token) && st.command == "" && IsRawCommand(token) {
        var raw := RawArgs(token, after);
        RawWorded(st', raw.0);
        LoopWorded(raw.1, st'.(args := st'.args + raw.0));
      } else {
        LoopWorded(after, st');
      }
    }
  }

  lemma PushWorded(st: State)
    requires WordedSoFar(st)
    ensures forall i | 0 <= i < |Push(st).done| :: Worded(Push(st).done[i])
  {
  }

  lemma RawWorded(st: State, raw: seq<string>)
    requires WordedSoFar(st) && IsRawCommand(st.name)
    ensures WordedSoFar(st.(args := st.args + raw))
  {
  }

  /** Whatever is typed, the name of a command is a word and no operator, and so is each of its arguments, unless
      the command is `yell` or `tell`. */
  lemma ArgumentsAreWords(line: string, k: nat)
    requires k < |ParseLine(line)|
    ensures var c := ParseLine(line)[k];
            && IsWord(c.name) && !IsOperator(c.name)
            && (!IsRawCommand(c.name) ==> forall i | 0 <= i < |c.args| :: IsWord(c.args[i]) && !IsOperator(c.args[i]))
  {
    LoopWorded(line, START);
    assert Worded(ParseLine(line)[k]);
  }

  // ---------- yell and tell, round trip ----------

  /** A rest of a line that can be read back: one line, and no whitespace in front. */
  predicate IsRest(s: string) {
    OneLine(s) && (s != "" ==> !IsSpace(s[0]))
  }

  lemma RestOfLine(s: string)
    requires IsRest(s)
    ensures SkipSpace(" " + s) == s && Line(s) == s && AfterLine(s) == ""
  {
    OneSpace(s);
    WholeLine(s);
  }

  lemma YellArgs(message: string)
    requires IsRest(message)
    ensures RawArgs("yell", " " + message) == ([message], "")
  {
    RestOfLine(message);
  }

  lemma TellArgs(to: string, message: string)
    requires IsWord(to) && IsRest(message)
    ensures RawArgs("tell", " " + (to + (" " + message))) == ([to, message], "")
  {
    ReadBack(to, " " + message);
    RestOfLine(message);
  }

  lemma LoopRaw(name: string, rest: string, raw: seq<string>, st: State)
    requires IsRawCommand(name) && !IsOperator(name) && st.command == "" && (st.name == "" ==> st.args == [])
    requires Separated(rest) && RawArgs(name, rest) == (raw, "")
    ensures var all := Push(st).done + [Command(name, raw, if st.name == "" then st.operators else [])];
            Loop(name + rest, st) == all && Loop(" " + (name + rest), st) == all
  {
    ReadBack(name, rest);
    hide RawArgs, IsOperator, Word, AfterWord, SkipSpace;
    var st1 := Take(st, name);
    assert [] + raw == raw;
    assert Loop("", st1.(args := raw)) == Push(st1.(args := raw)).done;
  }

  lemma RawNames()
    ensures IsRawCommand("yell") && IsRawCommand("tell") && !IsOperator("yell") && !IsOperator("tell")
    ensures IsWord("yell") && IsWord("tell")
  {
  }

  lemma LoopRawLine(cs: seq<Command>, name: string, rest: string, raw: seq<string>)
    requires WellFormed(cs) && (cs != [] ==> cs[|cs| - 1].operators != [])
    requires forall i | 0 <= i < |Flatten(cs)| :: IsWord(Flatten(cs)[i])
    requires IsRawCommand(name) && !IsOperator(name) && Separated(rest) && RawArgs(name, rest) == (raw, "")
    ensures ParseLine(Join(Flatten(cs)) + (" " + (name + rest))) == cs + [Command(name, raw, [])]
  {
    if cs == [] {
      assert "" + (" " + (name + rest)) == " " + (name + rest);
      LoopRaw(name, rest, raw, START);
    } else {
      TakeFlatten(cs, START);
      assert cs[0].(operators := [] + cs[0].operators) == cs[0];
      assert [] + [cs[0]] + cs[1..] == cs;
      assert Flatten(cs) != [];
      hide WellFormed, Take, IsWord, IsOperator, IsRawCommand, RawArgs, Loop;
      LoopJoin(Flatten(cs), " " + (name + rest), START);
      LoopRaw(name, rest, raw, TakeAll(Flatten(cs), START));
    }
  }

  /** After any commands, `yell` takes all the rest of the line, and `tell` one word and then all the rest. */
  lemma RawRoundTrip(cs: seq<Command>, to: string, message: string)
    requires WellFormed(cs) && (cs != [] ==> cs[|cs| - 1].operators != [])
    requires forall i | 0 <= i < |Flatten(cs)| :: IsWord(Flatten(cs)[i])
    requires IsWord(to) && IsRest(message)
    ensures ParseLine(Join(Flatten(cs)) + (" " + ("yell" + (" " + message)))) == cs + [Command("yell", [message], [])]
    ensures ParseLine(Join(Flatten(cs)) + (" " + ("tell" + (" " + (to + (" " + message))))))
         == cs + [Command("tell", [to, message], [])]
  {
    RawNames();
    YellArgs(message);
    TellArgs(to, message);
    hide WellFormed, IsWord, IsOperator, IsRawCommand, RawArgs, ParseLine;
    LoopRawLine(cs, "yell", " " + message, [message]);
    LoopRawLine(cs, "tell", " " + (to + (" " + message)), [to, message]);
  }
}
