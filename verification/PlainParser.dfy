/** The command-line parser of the stand-alone shell (project1): commands separated by single operators. */
module PlainParser {
  import opened Text

  datatype Command = Command(name: string, args: seq<string>)

  /** `commands[i]` is followed by `operators[i]`; the last command may have no operator. */
  datatype ParseResult = ParseResult(commands: seq<Command>, operators: seq<string>, errorMessage: string)

  const ERROR := "Error! operator before command."

  /** `|`, `>`, `|N` and `!N`, where N is a positive decimal number. */
  predicate IsOperator(t: string) {
    t == "|" || t == ">" || IsNumbered(t)
  }

  predicate IsNumbered(t: string) {
    |t| >= 2 && (t[0] == '|' || t[0] == '!') && '1' <= t[1] <= '9' && AllDigits(t[1..])
  }

  /** `sscanf(op, "|%d", &count)` on a numbered operator. */
  function Count(t: string): (n: nat)
    requires IsNumbered(t)
    ensures n >= 1
  {
    PositiveValue(t[1..]);
    Value(t[1..])
  }

  lemma {:induction false} PositiveValue(d: string)
    requires d != "" && AllDigits(d) && d[0] != '0'
    ensures Value(d) >= 1
  {
    if |d| > 1 {
      PositiveValue(d[..|d| - 1]);
    }
  }

  // ---------- what is an operator ----------

  predicate Spells(t: string, c: char, n: nat) {
    (c == '|' || c == '!') && n >= 1 && t == [c] + Decimal(n)
  }

  lemma SpellsNumbered(t: string, c: char, n: nat)
    requires Spells(t, c, n)
    ensures IsNumbered(t) && IsWord(t) && Count(t) == n && t[0] == c
  {
    ValueOfDecimal(n);
    assert t[1..] == Decimal(n);
    assert IsDigit(Decimal(n)[0]);
    assert forall i | 0 <= i < |Decimal(n)| :: IsDigit(Decimal(n)[i]);
    hide Decimal, Value;
  }

  lemma NumberedSpells(t: string)
    requires IsNumbered(t)
    ensures Spells(t, t[0], Count(t))
  {
    DecimalOfValue(t[1..]);
  }

  /** The operators are `|`, `>`, and `|` or `!` with the decimal of a positive number. */
  lemma OperatorIff(t: string)
    ensures IsOperator(t) <==> t == "|" || t == ">" || exists c: char, n: nat :: Spells(t, c, n)
  {
    if IsNumbered(t) {
      NumberedSpells(t);
    }
    if c: char, n: nat :| Spells(t, c, n) {
      SpellsNumbered(t, c, n);
    }
  }

  // ---------- the token loop ----------

  /** What the token loop has still to do, from the command and arguments being collected and the result so far. */
  function Finish(ts: seq<string>, name: string, args: seq<string>, done: ParseResult): ParseResult {
    if ts == [] then
      if name != "" then done.(commands := done.commands + [Command(name, args)]) else done
    else if IsOperator(ts[0]) then
      if name == "" then ParseResult([], [], ERROR)
      else Finish(ts[1..], "", [], done.(commands := done.commands + [Command(name, args)],
                                         operators := done.operators + [ts[0]]))
    else if name == "" then Finish(ts[1..], ts[0], args, done)
    else Finish(ts[1..], name, args + [ts[0]], done)
  }

  const EMPTY := ParseResult([], [], "")

  function ParseTokens(ts: seq<string>): ParseResult {
    Finish(ts, "", [], EMPTY)
  }

  method Parse(line: string) returns (r: ParseResult)
    ensures r == ParseTokens(Tokens(line))
  {
    r := EMPTY;
    var name, args: seq<string> := "", [];
    var rest := SkipSpace(line);
    while rest != ""
      invariant rest == "" || !IsSpace(rest[0])
      invariant r.errorMessage == ""
      invariant SkipSpace(rest) == rest
      invariant Finish(Tokens(rest), name, args, r) == ParseTokens(Tokens(line))
      decreases |rest|
    {
      var token := Word(rest);
      rest := SkipSpace(AfterWord(rest));
      if IsOperator(token) {
        if name == "" {
          r := r.(errorMessage := ERROR);
          break;
        }
        r := r.(commands := r.commands + [Command(name, args)], operators := r.operators + [token]);
        name, args := "", [];
      } else if name == "" {
        name := token;
      } else {
        args := args + [token];
      }
    }
    if name != "" {
      r := r.(commands := r.commands + [Command(name, args)]);
    }
    if r.errorMessage != "" {
      r := ParseResult([], [], r.errorMessage);
    }
  }

  // ---------- what a parse means ----------

  function Words(c: Command): seq<string> {
    [c.name] + c.args
  }

  /** The tokens a result stands for: each command's words followed by its operator. */
  function Flatten(commands: seq<Command>, operators: seq<string>): seq<string> {
    if commands == [] then []
    else if operators == [] then Words(commands[0]) + Flatten(commands[1..], [])
    else Words(commands[0]) + ([operators[0]] + Flatten(commands[1..], operators[1..]))
  }

  predicate PlainWord(w: string) {
    w != "" && !IsOperator(w)
  }

  predicate PlainWords(ws: seq<string>) {
    forall i | 0 <= i < |ws| :: PlainWord(ws[i])
  }

  ghost predicate WellFormed(commands: seq<Command>, operators: seq<string>) {
    && |operators| <= |commands| <= |operators| + 1
    && (forall i | 0 <= i < |commands| :: PlainWords(Words(commands[i])))
    && (forall i | 0 <= i < |operators| :: IsOperator(operators[i]))
  }

  /** An operator with no command in front of it. */
  ghost predicate Misplaced(ts: seq<string>, i: nat)
    requires i < |ts|
  {
    IsOperator(ts[i]) && (i == 0 || IsOperator(ts[i - 1]))
  }

  lemma {:induction false} FinishArgs(args: seq<string>, ts: seq<string>, name: string, before: seq<string>, done: ParseResult)
    requires name != "" && PlainWords(args)
    ensures Finish(args + ts, name, before, done) == Finish(ts, name, before + args, done)
  {
    if args == [] {
      assert args + ts == ts;
      assert before + args == before;
    } else {
      assert (args + ts)[1..] == args[1..] + ts;
      FinishArgs(args[1..], ts, name, before + [args[0]], done);
      assert before + [args[0]] + args[1..] == before + args;
    }
  }

  /** Reading a well-formed result's tokens appends exactly that result. */
  lemma {:induction false} FinishFlatten(commands: seq<Command>, operators: seq<string>, done: ParseResult)
    requires WellFormed(commands, operators)
    ensures Finish(Flatten(commands, operators), "", [], done)
         == done.(commands := done.commands + commands, operators := done.operators + operators)
    decreases |commands|
  {
    var ts := Flatten(commands, operators);
    if commands == [] {
      assert done.commands + commands == done.commands && done.operators + operators == done.operators;
    } else {
      var c := commands[0];
      assert Words(c)[0] == c.name && Words(c)[1..] == c.args;
      assert PlainWord(c.name) by { assert PlainWords(Words(c)); }
      assert PlainWords(c.args) by {
        forall i | 0 <= i < |c.args| ensures PlainWord(c.args[i]) { assert c.args[i] == Words(c)[i + 1]; }
      }
      var rest := if operators == [] then [] else [operators[0]] + Flatten(commands[1..], operators[1..]);
      assert ts == [c.name] + (c.args + rest) by {
        if operators == [] { assert commands[1..] == [] && Flatten(commands[1..], []) == []; }
        assert ts == Words(c) + rest;
      }
      FinishArgs(c.args, rest, c.name, [], done);
      assert [] + c.args == c.args;
      var done' := done.(commands := done.commands + [c]);
      assert commands == [c] + commands[1..];
      if operators == [] {
        assert commands == [c];
      } else {
        assert operators == [operators[0]] + operators[1..];
        var done'' := done'.(operators := done.operators + [operators[0]]);
        FinishFlatten(commands[1..], operators[1..], done'');
        assert done''.commands + commands[1..] == done.commands + commands;
        assert done''.operators + operators[1..] == done.operators + operators;
      }
    }
  }

  /** Round trip: the printed form of every well-formed result parses back to it. */
  lemma ParseFlatten(commands: seq<Command>, operators: seq<string>)
    requires WellFormed(commands, operators)
    ensures ParseTokens(Flatten(commands, operators)) == ParseResult(commands, operators, "")
  {
    FinishFlatten(commands, operators, EMPTY);
    assert [] + commands == commands && [] + operators == operators;
  }

  /** Every token list without a misplaced operator is the flattening of a well-formed result. */
  lemma {:induction false} Unflatten(ts: seq<string>) returns (commands: seq<Command>, operators: seq<string>)
    requires forall i | 0 <= i < |ts| :: ts[i] != ""
    requires forall i | 0 <= i < |ts| :: !Misplaced(ts, i)
    ensures WellFormed(commands, operators) && Flatten(commands, operators) == ts
    decreases |ts|
  {
    if ts == [] {
      return [], [];
    }
    assert !Misplaced(ts, 0);
    var k := 1;
    while k < |ts| && !IsOperator(ts[k])
      invariant 1 <= k <= |ts|
      invariant forall i | 0 <= i < k :: !IsOperator(ts[i])
    {
      k := k + 1;
    }
    var c := Command(ts[0], ts[1..k]);
    assert Words(c) == ts[..k];
    assert PlainWords(ts[..k]);
    if k == |ts| {
      commands, operators := [c], [];
      assert Flatten(commands[1..], []) == [];
      assert ts == ts[..k];
    } else {
      var tail := ts[k + 1..];
      forall i | 0 <= i < |tail| ensures !Misplaced(tail, i) {
        assert !Misplaced(ts, k + 1 + i);
      }
      var cs, ops := Unflatten(tail);
      commands, operators := [c] + cs, [ts[k]] + ops;
      assert commands[1..] == cs && operators[1..] == ops;
      assert ts == ts[..k] + ([ts[k]] + tail);
    }
  }

  /** A misplaced operator empties the result, whatever surrounds it. */
  lemma {:induction false} MisplacedFails(ts: seq<string>, i: nat, name: string, args: seq<string>, done: ParseResult)
    requires i < |ts| && IsOperator(ts[i])
    requires if i == 0 then name == "" else IsOperator(ts[i - 1])
    ensures Finish(ts, name, args, done) == ParseResult([], [], ERROR)
  {
    if i == 0 || (IsOperator(ts[0]) && name == "") {
    } else if IsOperator(ts[0]) {
      MisplacedFails(ts[1..], i - 1, "", [], done.(commands := done.commands + [Command(name, args)],
                                                  operators := done.operators + [ts[0]]));
    } else if name == "" {
      MisplacedFails(ts[1..], i - 1, ts[0], args, done);
    } else {
      MisplacedFails(ts[1..], i - 1, name, args + [ts[0]], done);
    }
  }

  /** The parse is total and exact: an error exactly when an operator lacks its command, and otherwise
      the one well-formed result whose tokens are the line's tokens. */
  lemma ParseMeaning(ts: seq<string>)
    requires forall i | 0 <= i < |ts| :: ts[i] != ""
    ensures var r := ParseTokens(ts);
            && (r.errorMessage != "" <==> exists i | 0 <= i < |ts| :: Misplaced(ts, i))
            && (r.errorMessage != "" ==> r == ParseResult([], [], ERROR))
            && (r.errorMessage == "" ==> WellFormed(r.commands, r.operators) && Flatten(r.commands, r.operators) == ts)
  {
    if i :| 0 <= i < |ts| && Misplaced(ts, i) {
      MisplacedFails(ts, i, "", [], EMPTY);
    } else {
      var commands, operators := Unflatten(ts);
      ParseFlatten(commands, operators);
    }
  }
}
