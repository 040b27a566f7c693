/** What a line makes the stand-alone shell do, told without the parser: steps are written down as words, and every
    line written this way is exactly those steps. */
module ShellLines {
  import opened Text
  import opened PipeGraph
  import opened Shell
  import PlainParser

  // ---------- steps in writing ----------

  /** A step as it is typed, and the operator behind it, which is "" only at the end of a line. */
  datatype Typed = Typed(step: Step, mark: string)

  /** `!` sends the error stream ahead as well, and `|` does not. */
  function Mark(out: Output): string {
    match out
    case ToNext => "|"
    case ToFile(_) => ">"
    case ToConsole => ""
    case ToSession(ahead, withErr) => (if withErr then "!" else "|") + Decimal(ahead)
  }

  /** The commands that the shell runs itself, whatever operator stands behind them. */
  predicate IsOwn(name: string) {
    name == "exit" || name == "printenv" || name == "setenv"
  }

  predicate Marked(t: Typed) {
    if t.step.Builtin? then IsOwn(t.step.name) && (t.mark == "" || PlainParser.IsOperator(t.mark))
    else !IsOwn(t.step.name) && t.mark == Mark(t.step.out)
  }

  function Only(mark: string): seq<string> {
    if mark == "" then [] else [mark]
  }

  function Words(ts: seq<Typed>): seq<string> {
    if ts == [] then [] else [ts[0].step.name] + ts[0].step.args + Only(ts[0].mark) + Words(ts[1..])
  }

  function Steps(ts: seq<Typed>): seq<Step> {
    seq(|ts|, (i: nat) requires i < |ts| => ts[i].step)
  }

  /** A word that is no operator. */
  predicate IsItem(w: string) {
    IsWord(w) && !PlainParser.IsOperator(w)
  }

  predicate AllItems(ws: seq<string>) {
    forall i | 0 <= i < |ws| :: IsItem(ws[i])
  }

  /** No operator stands at the beginning or behind another one. */
  ghost predicate WellPlaced(ws: seq<string>) {
    (forall i | 0 <= i < |ws| :: IsWord(ws[i])) && forall i | 0 <= i < |ws| :: !PlainParser.Misplaced(ws, i)
  }

  /** What may stand behind the last step. Behind `>` there is the file's name, and whatever follows it is not
      looked at. Otherwise there is nothing, or a command that asks for a file and has no name for it. */
  ghost predicate TailFits(last: Option<Output>, tail: seq<string>) {
    WellPlaced(tail) &&
    if last.Some? && last.value.ToFile? then tail != [] && tail[0] == last.value.file
    else if last == Some(ToConsole) then tail == []
    else tail == [] || (AllItems(tail[..|tail| - 1]) && |tail| > 1 && tail[|tail| - 1] == ">" && !IsOwn(tail[0]))
  }

  function LastOutput(ts: seq<Typed>): Option<Output> {
    if ts == [] then None
    else
      var last := ts[|ts| - 1];
      if last.step.Fork? then Some(last.step.out) else if last.mark == "" then Some(ToConsole) else None
  }

  ghost predicate Typeable(ts: seq<Typed>, tail: seq<string>) {
    && (forall i | 0 <= i < |ts| :: IsItem(ts[i].step.name) && AllItems(ts[i].step.args) && Marked(ts[i]))
    && (forall i | 0 <= i < |ts| - 1 :: ts[i].mark != "" && (ts[i].step.Fork? ==> !ts[i].step.out.ToFile?))
    && TailFits(LastOutput(ts), tail)
  }

  // ---------- what the shell makes of written steps ----------

  lemma MarkReads(out: Output)
    requires !out.ToConsole?
    ensures PlainParser.IsOperator(Mark(out)) && IsWord(Mark(out)) && Mark(out) != ""
    ensures out.ToSession? ==>
              && Mark(out) != "|" && Mark(out) != ">"
              && PlainParser.Count(Mark(out)) == out.ahead && (Mark(out)[0] == '!' <==> out.withErr)
  {
    if out.ToSession? {
      var c := if out.withErr then '!' else '|';
      assert PlainParser.Spells(Mark(out), c, out.ahead);
      PlainParser.SpellsNumbered(Mark(out), c, out.ahead);
      assert [c] + Decimal(out.ahead) != "|" && [c] + Decimal(out.ahead) != ">";
    }
  }

  /** The shell's reading of one written step. */
  lemma ReadsStep(r: PlainParser.ParseResult, i: nat, t: Typed)
    requires PlainParser.WellFormed(r.commands, r.operators) && i < |r.commands| && Marked(t)
    requires r.commands[i] == PlainParser.Command(t.step.name, t.step.args)
    requires t.mark == if i < |r.operators| then r.operators[i] else ""
    requires t.step.Fork? && t.step.out.ToFile? ==> i + 1 < |r.commands| && r.commands[i + 1].name == t.step.out.file
    ensures StepsFrom(r, i) == [t.step] + (if t.step.Fork? && t.step.out.ToFile? then [] else StepsFrom(r, i + 1))
  {
    hide PlainParser.Count, PlainParser.IsOperator, Decimal;
    if t.step.Fork? && !t.step.out.ToConsole? {
      MarkReads(t.step.out);
    }
  }

  function Commands(ts: seq<Typed>): seq<PlainParser.Command> {
    seq(|ts|, (i: nat) requires i < |ts| => PlainParser.Command(ts[i].step.name, ts[i].step.args))
  }

  function Marks(ts: seq<Typed>): seq<string> {
    if ts == [] then [] else Only(ts[0].mark) + Marks(ts[1..])
  }

  ghost predicate Linked(ts: seq<Typed>) {
    forall i | 0 <= i < |ts| - 1 :: ts[i].mark != ""
  }

  lemma LinkedRest(ts: seq<Typed>)
    requires Linked(ts) && ts != []
    ensures Linked(ts[1..])
  {
    forall i | 0 <= i < |ts[1..]| - 1 ensures ts[1..][i].mark != "" { assert ts[i + 1].mark != ""; }
  }

  lemma {:induction false} MarksAt(ts: seq<Typed>)
    requires Linked(ts)
    ensures |Marks(ts)| == if ts != [] && ts[|ts| - 1].mark == "" then |ts| - 1 else |ts|
    ensures forall i | 0 <= i < |Marks(ts)| :: Marks(ts)[i] == ts[i].mark != ""
  {
    if ts != [] {
      LinkedRest(ts);
      MarksAt(ts[1..]);
    }
  }

  lemma OneFlatten(step: Step, mark: string, commands: seq<PlainParser.Command>, operators: seq<string>)
    requires commands != [] && commands[0] == PlainParser.Command(step.name, step.args)
    requires if mark == "" then operators == [] && commands[1..] == [] else operators != [] && operators[0] == mark
    ensures PlainParser.Flatten(commands, operators)
         == [step.name] + step.args + Only(mark)
            + (if mark == "" then [] else PlainParser.Flatten(commands[1..], operators[1..]))
  {
    var own := [step.name] + step.args;
    if mark == "" {
      assert own + [] == own + [] + [];
    } else {
      Assoc(own, [mark], PlainParser.Flatten(commands[1..], operators[1..]));
    }
  }

  lemma FirstWritten(ts: seq<Typed>, commands: seq<PlainParser.Command>, operators: seq<string>)
    requires ts != []
    ensures var cs := Commands(ts) + commands;
            cs != [] && cs[0] == PlainParser.Command(ts[0].step.name, ts[0].step.args)
            && cs[1..] == Commands(ts[1..]) + commands
    ensures Marks(ts) + operators == Only(ts[0].mark) + (Marks(ts[1..]) + operators)
  {
  }

  lemma FirstWords(ts: seq<Typed>, tail: seq<string>)
    requires ts != []
    ensures Words(ts) + tail == [ts[0].step.name] + ts[0].step.args + Only(ts[0].mark) + (Words(ts[1..]) + tail)
  {
    Assoc([ts[0].step.name] + ts[0].step.args + Only(ts[0].mark), Words(ts[1..]), tail);
  }

  /** The written words are the words of the written commands and their operators. */
  lemma {:induction false} WordsFlatten(ts: seq<Typed>, commands: seq<PlainParser.Command>, operators: seq<string>)
    requires Linked(ts)
    requires ts != [] && ts[|ts| - 1].mark == "" ==> commands == [] && operators == []
    ensures PlainParser.Flatten(Commands(ts) + commands, Marks(ts) + operators)
         == Words(ts) + PlainParser.Flatten(commands, operators)
  {
    var tail := PlainParser.Flatten(commands, operators);
    if ts == [] {
      hide PlainParser.Flatten;
      assert Commands(ts) + commands == commands && Marks(ts) + operators == operators;
      assert Words(ts) + tail == tail;
    } else {
      hide PlainParser.Flatten, Commands, Marks, Words;
      LinkedRest(ts);
      FirstWritten(ts, commands, operators);
      FirstWords(ts, tail);
      var cs, ops := Commands(ts) + commands, Marks(ts) + operators;
      if ts[0].mark == "" {
        NothingFlattens(ts, operators, commands);
        OneFlatten(ts[0].step, "", cs, ops);
      } else {
        WordsFlatten(ts[1..], commands, operators);
        assert ops[1..] == Marks(ts[1..]) + operators;
        OneFlatten(ts[0].step, ts[0].mark, cs, ops);
      }
    }
  }

  lemma NothingFlattens(ts: seq<Typed>, operators: seq<string>, commands: seq<PlainParser.Command>)
    requires Linked(ts) && ts != [] && ts[0].mark == ""
    requires ts[|ts| - 1].mark == "" ==> commands == [] && operators == []
    ensures Marks(ts) + operators == [] && (Commands(ts) + commands)[1..] == []
    ensures Words(ts[1..]) + PlainParser.Flatten(commands, operators) == []
  {
    assert |ts| == 1 && ts[1..] == [];
  }

  lemma PlainItems(ws: seq<string>)
    requires AllItems(ws)
    ensures PlainParser.PlainWords(ws)
  {
    forall i | 0 <= i < |ws| ensures PlainParser.PlainWord(ws[i]) { assert IsItem(ws[i]); }
  }

  lemma PlainStep(step: Step)
    requires IsItem(step.name) && AllItems(step.args)
    ensures PlainParser.PlainWords(PlainParser.Words(PlainParser.Command(step.name, step.args)))
  {
    hide IsItem;
    PlainItems([step.name] + step.args);
  }

  lemma MarkIsOperator(t: Typed)
    requires Marked(t) && t.mark != ""
    ensures PlainParser.IsOperator(t.mark)
  {
    if t.step.Fork? { MarkReads(t.step.out); }
  }

  lemma WrittenWellFormed(ts: seq<Typed>, tail: seq<string>, commands: seq<PlainParser.Command>, operators: seq<string>)
    requires Typeable(ts, tail) && PlainParser.WellFormed(commands, operators)
    requires ts != [] && ts[|ts| - 1].mark == "" ==> commands == [] && operators == []
    ensures PlainParser.WellFormed(Commands(ts) + commands, Marks(ts) + operators)
  {
    hide PlainParser.IsOperator, PlainParser.PlainWords, PlainParser.Words, Marked, IsItem, AllItems, Marks, TailFits;
    MarksAt(ts);
    var cs, ops := Commands(ts) + commands, Marks(ts) + operators;
    forall i | 0 <= i < |cs| ensures PlainParser.PlainWords(PlainParser.Words(cs[i])) {
      if i < |ts| {
        PlainStep(ts[i].step);
      } else {
        assert cs[i] == commands[i - |ts|];
      }
    }
    forall i | 0 <= i < |ops| ensures PlainParser.IsOperator(ops[i]) {
      if i < |Marks(ts)| {
        MarkIsOperator(ts[i]);
      } else {
        assert ops[i] == operators[i - |Marks(ts)|];
      }
    }
  }

  /** What stands behind the last step, as commands. */
  lemma TailCommands(last: Option<Output>, tail: seq<string>)
    returns (commands: seq<PlainParser.Command>, operators: seq<string>)
    requires TailFits(last, tail)
    ensures PlainParser.WellFormed(commands, operators) && PlainParser.Flatten(commands, operators) == tail
    ensures tail != [] ==> commands != [] && commands[0].name == tail[0]
    ensures !(last.Some? && last.value.ToFile?) && tail != [] ==>
              |commands| == 1 && operators == [">"] && !IsOwn(commands[0].name)
  {
    if tail == [] || (last.Some? && last.value.ToFile?) {
      commands, operators := PlainParser.Unflatten(tail);
      hide PlainParser.IsOperator;
    } else {
      var n := |tail| - 1;
      commands, operators := [PlainParser.Command(tail[0], tail[1..n])], [">"];
      assert commands[1..] == [] && operators[1..] == [];
      assert [tail[0]] + tail[1..n] == tail[..n];
      PlainItems(tail[..n]);
      assert tail == tail[..n] + ([">"] + []);
      assert PlainParser.IsOperator(">");
      hide PlainParser.IsOperator;
    }
  }

  lemma ReadsOn(ts: seq<Typed>, tail: seq<string>, r: PlainParser.ParseResult, i: nat)
    requires PlainParser.WellFormed(r.commands, r.operators) && i <= |ts| <= |r.commands|
    requires forall k | 0 <= k < |ts| :: Marked(ts[k]) && r.commands[k] == Commands(ts)[k]
    requires forall k | 0 <= k < |ts| :: ts[k].mark == if k < |r.operators| then r.operators[k] else ""
    requires forall k | 0 <= k < |ts| - 1 :: !IntoFile(ts[k])
    requires ts != [] && IntoFile(ts[|ts| - 1]) ==>
               |ts| < |r.commands| && r.commands[|ts|].name == ts[|ts| - 1].step.out.file
    requires i == |ts| ==> StepsFrom(r, i) == [] && (ts != [] ==> !IntoFile(ts[|ts| - 1]))
    requires ts != [] && !IntoFile(ts[|ts| - 1]) ==> StepsFrom(r, |ts|) == []
    ensures StepsFrom(r, i) == Steps(ts)[i..]
    decreases |ts| - i
  {
    hide Marked, StepsFrom, PlainParser.WellFormed;
    if i < |ts| {
      ReadsStep(r, i, ts[i]);
      assert Steps(ts)[i..] == [ts[i].step] + Steps(ts)[i + 1..];
      if !IntoFile(ts[i]) {
        ReadsOn(ts, tail, r, i + 1);
      }
    }
  }

  predicate IntoFile(t: Typed) {
    t.step.Fork? && t.step.out.ToFile?
  }

  lemma NothingMore(r: PlainParser.ParseResult, i: nat)
    requires PlainParser.WellFormed(r.commands, r.operators) && i <= |r.commands|
    requires i == |r.commands| || (i + 1 == |r.commands| == |r.operators| && r.operators[i] == ">" && !IsOwn(r.commands[i].name))
    ensures StepsFrom(r, i) == []
  {
    hide PlainParser.Count;
  }

  lemma WrittenParses(ts: seq<Typed>, tail: seq<string>) returns (r: PlainParser.ParseResult)
    requires Typeable(ts, tail)
    ensures PlainParser.ParseTokens(Words(ts) + tail) == r && r.errorMessage == ""
    ensures PlainParser.WellFormed(r.commands, r.operators) && |ts| <= |r.commands|
    ensures StepsFrom(r, 0) == Steps(ts)
  {
    hide PlainParser.WellFormed, PlainParser.Flatten, PlainParser.ParseTokens, Words, StepsFrom, Marked, IsItem, AllItems, IsOwn;
    var last := LastOutput(ts);
    var commands, operators := TailCommands(last, tail);
    if tail == [] { NoWords(commands, operators); }
    if ts != [] && ts[|ts| - 1].mark == "" { NoMark(ts[|ts| - 1]); }
    WrittenWellFormed(ts, tail, commands, operators);
    WordsFlatten(ts, commands, operators);
    r := PlainParser.ParseResult(Commands(ts) + commands, Marks(ts) + operators, "");
    PlainParser.ParseFlatten(r.commands, r.operators);
    MarksAt(ts);
    hide Marks;
    if ts == [] || !IntoFile(ts[|ts| - 1]) {
      NothingMore(r, |ts|);
    }
    ReadsOn(ts, tail, r, 0);
    assert Steps(ts)[0..] == Steps(ts);
  }

  lemma NoMark(t: Typed)
    requires Marked(t) && t.mark == ""
    ensures t.step.Fork? ==> t.step.out.ToConsole?
  {
    if t.step.Fork? && !t.step.out.ToConsole? { MarkReads(t.step.out); }
  }

  lemma NoWords(commands: seq<PlainParser.Command>, operators: seq<string>)
    requires PlainParser.WellFormed(commands, operators) && PlainParser.Flatten(commands, operators) == []
    ensures commands == [] && operators == []
  {
  }

  /** Every list of steps that is typed as a line is what the shell makes of that line: `!` exactly for the error
      stream, the number exactly as far ahead, the file exactly as named. */
  lemma TypedSteps(ts: seq<Typed>, tail: seq<string>, line: string)
    requires Typeable(ts, tail) && Tokens(line) == Words(ts) + tail
    ensures LineSteps(line) == Steps(ts)
  {
    hide Tokens, PlainParser.WellFormed, PlainParser.ParseTokens, Words, StepsFrom, Typeable;
    var r := WrittenParses(ts, tail);
  }

  /** And a line with an operator at its beginning or behind another one does nothing at all. */
  lemma MisplacedDoesNothing(line: string, i: nat)
    requires i < |Tokens(line)| && PlainParser.Misplaced(Tokens(line), i)
    ensures LineSteps(line) == []
  {
    PlainParser.ParseMeaning(Tokens(line));
    hide PlainParser.ParseTokens, PlainParser.Misplaced, Tokens;
  }

  // ---------- every other line is some list of steps in writing ----------

  lemma WellPlacedRest(ws: seq<string>, k: nat)
    requires WellPlaced(ws) && k < |ws| && PlainParser.IsOperator(ws[k])
    ensures WellPlaced(ws[k + 1..])
  {
    hide PlainParser.IsOperator, IsWord;
    var rest := ws[k + 1..];
    forall i: nat | i < |rest| ensures !PlainParser.Misplaced(rest, i) {
      assert !PlainParser.Misplaced(ws, k + 1 + i);
    }
  }

  lemma MarkInWriting(op: string) returns (out: Output)
    requires PlainParser.IsOperator(op) && op != ">"
    ensures Mark(out) == op && (out.ToNext? || out.ToSession?)
  {
    if op == "|" {
      out := ToNext;
    } else {
      PlainParser.NumberedSpells(op);
      out := ToSession(PlainParser.Count(op), op[0] == '!');
      hide Decimal, PlainParser.Count;
    }
  }

  /** The words up to the first operator. */
  lemma FirstOperator(ws: seq<string>) returns (k: nat)
    requires WellPlaced(ws) && ws != []
    ensures 1 <= k <= |ws| && (k < |ws| ==> PlainParser.IsOperator(ws[k]))
    ensures AllItems(ws[..k])
  {
    assert !PlainParser.Misplaced(ws, 0);
    hide PlainParser.IsOperator, IsWord;
    k := 1;
    while k < |ws| && !PlainParser.IsOperator(ws[k])
      invariant 1 <= k <= |ws|
      invariant forall i | 0 <= i < k :: !PlainParser.IsOperator(ws[i])
    {
      k := k + 1;
    }
    forall i | 0 <= i < k ensures IsItem(ws[..k][i]) { assert ws[..k][i] == ws[i]; }
  }

  lemma OneMoreTyped(t: Typed, ts: seq<Typed>, tail: seq<string>)
    requires IsItem(t.step.name) && AllItems(t.step.args) && Marked(t)
    requires if IntoFile(t) then ts == [] && WellPlaced(tail) && tail != [] && tail[0] == t.step.out.file
             else if t.mark == "" then ts == [] && tail == []
             else Typeable(ts, tail)
    ensures Typeable([t] + ts, tail)
    ensures Words([t] + ts) == [t.step.name] + t.step.args + Only(t.mark) + Words(ts)
  {
    hide IsItem, AllItems, Marked, PlainParser.Misplaced, IsWord, Mark;
    var all := [t] + ts;
    assert all[1..] == ts;
    if t.mark == "" { NoMark(t); } else if t.step.Fork? { MarkedOutput(t); }
    forall i | 0 <= i < |all| ensures IsItem(all[i].step.name) && AllItems(all[i].step.args) && Marked(all[i]) {
      if i > 0 { assert all[i] == ts[i - 1]; }
    }
    forall i | 0 <= i < |all| - 1 ensures all[i].mark != "" && (all[i].step.Fork? ==> !all[i].step.out.ToFile?) {
      if i > 0 { assert all[i] == ts[i - 1]; }
    }
    assert all[|all| - 1] == if ts == [] then t else ts[|ts| - 1];
  }

  lemma MarkedOutput(t: Typed)
    requires Marked(t) && t.mark != "" && t.step.Fork?
    ensures !t.step.out.ToConsole?
  {
  }

  lemma LastInWriting(ws: seq<string>) returns (ts: seq<Typed>)
    requires ws != [] && AllItems(ws)
    ensures Typeable(ts, []) && Words(ts) + [] == ws
  {
    hide Typeable, Words, Marked, IsOwn, IntoFile, IsItem;
    var t := FinalStep(ws[0], ws[1..]);
    assert IsItem(ws[0]) && AllItems(ws[1..]);
    OneMoreTyped(t, [], []);
    ts := [t] + [];
    NoTyped();
    assert ws == [ws[0]] + ws[1..] + [] + [];
  }

  lemma FileInWriting(ws: seq<string>, k: nat) returns (ts: seq<Typed>)
    requires WellPlaced(ws) && 1 <= k && k + 1 < |ws| && AllItems(ws[..k]) && ws[k] == ">" && !IsOwn(ws[0])
    ensures Typeable(ts, ws[k + 1..]) && Words(ts) + ws[k + 1..] == ws
  {
    assert PlainParser.IsOperator(ws[k]);
    hide Typeable, WellPlaced, Words, Marked, IsOwn, IntoFile, IsItem;
    WellPlacedRest(ws, k);
    var t := FileStep(ws[0], ws[1..k], ws[k + 1]);
    assert ws[..k][0] == ws[0] && ws[..k][1..] == ws[1..k];
    assert IsItem(ws[..k][0]) && AllItems(ws[..k][1..]);
    OneMoreTyped(t, [], ws[k + 1..]);
    ts := [t] + [];
    NoTyped();
    assert ws == [ws[0]] + ws[1..k] + [">"] + [] + ws[k + 1..];
  }

  /** No line with its operators in place is left out. */
  lemma EveryLineInWriting(ws: seq<string>) returns (ts: seq<Typed>, tail: seq<string>)
    requires WellPlaced(ws)
    ensures Typeable(ts, tail) && Words(ts) + tail == ws
    decreases |ws|
  {
    ts, tail := [], ws;
    if ws != [] {
      var k := FirstOperator(ws);
      hide PlainParser.IsOperator, IsWord, Typeable, WellPlaced, Words, Marked, IsOwn, IntoFile;
      var name, args := ws[0], ws[1..k];
      assert IsItem(name) && AllItems(args) && ws[..k] == [name] + args;
      if k == |ws| {
        ts := LastInWriting(ws);
        tail := [];
      } else if IsOwn(name) || ws[k] != ">" {
        WellPlacedRest(ws, k);
        var t := MiddleStep(name, args, ws[k]);
        ts, tail := EveryLineInWriting(ws[k + 1..]);
        OneMoreTyped(t, ts, tail);
        assert ws == [name] + args + Only(t.mark) + (Words(ts) + tail);
        Assoc([name] + args + Only(t.mark), Words(ts), tail);
        ts := [t] + ts;
      } else if k + 1 == |ws| {
        GivenUp(ws, k);
      } else {
        ts := FileInWriting(ws, k);
        tail := ws[k + 1..];
      }
    }
    if ws == [] { NothingTyped(); assert Words(ts) + tail == ws; }
  }

  lemma NoTyped()
    ensures Words([]) == []
  {
  }

  lemma NothingTyped()
    ensures Typeable([], []) && Words([]) == []
  {
  }

  lemma GivenUp(ws: seq<string>, k: nat)
    requires WellPlaced(ws) && 1 <= k && |ws| == k + 1 && AllItems(ws[..k]) && ws[k] == ">" && !IsOwn(ws[0])
    ensures Typeable([], ws) && Words([]) + ws == ws
  {
    hide PlainParser.IsOperator, IsWord, WellPlaced;
  }

  lemma FinalStep(name: string, args: seq<string>) returns (t: Typed)
    ensures t.step.name == name && t.step.args == args && t.mark == "" && Marked(t) && !IntoFile(t)
  {
    t := Typed(if IsOwn(name) then Builtin(name, args) else Fork(name, args, ToConsole), "");
  }

  lemma MiddleStep(name: string, args: seq<string>, op: string) returns (t: Typed)
    requires PlainParser.IsOperator(op) && (IsOwn(name) || op != ">")
    ensures t.step.name == name && t.step.args == args && t.mark == op && t.mark != "" && Marked(t) && !IntoFile(t)
  {
    if IsOwn(name) {
      t := Typed(Builtin(name, args), op);
    } else {
      var out := MarkInWriting(op);
      t := Typed(Fork(name, args, out), op);
    }
  }

  lemma FileStep(name: string, args: seq<string>, file: string) returns (t: Typed)
    requires !IsOwn(name)
    ensures t == Typed(Fork(name, args, ToFile(file)), ">") && Marked(t) && IntoFile(t)
  {
    t := Typed(Fork(name, args, PipeGraph.ToFile(file)), ">");
  }

  // ---------- a whole input ----------

  predicate HasExit(steps: seq<Step>) {
    exists k | 0 <= k < |steps| :: steps[k].Builtin? && steps[k].name == "exit"
  }

  lemma {:induction false} ExitsIff(steps: seq<Step>)
    ensures Exits(steps) <==> HasExit(steps)
  {
    if steps != [] {
      ExitsIff(steps[1..]);
      if k :| 0 <= k < |steps| && steps[k].Builtin? && steps[k].name == "exit" {
        if k > 0 { assert steps[1..][k - 1] == steps[k]; }
      }
    }
  }

  predicate AnyExit(lines: seq<string>) {
    exists k | 0 <= k < |lines| :: HasExit(LineSteps(lines[k]))
  }

  /** The lines are worked off one after the other, and nothing is read behind a line that runs `exit`. */
  lemma {:induction false} InputOfLines(line: string, before: seq<string>, after: seq<string>)
    ensures InputSteps([line]) == LineSteps(line)
    ensures InputSteps(before + after) == InputSteps(before) + (if AnyExit(before) then [] else InputSteps(after))
    decreases |before|
  {
    ExitsIff(LineSteps(line));
    assert [line][1..] == [] && LineSteps(line) + [] == LineSteps(line);
    hide LineSteps, HasExit, Exits;
    if before == [] {
      assert before + after == after && [] + InputSteps(after) == InputSteps(after);
    } else {
      ExitsIff(LineSteps(before[0]));
      assert (before + after)[1..] == before[1..] + after;
      InputOfLines(line, before[1..], after);
      if HasExit(LineSteps(before[0])) {
        assert AnyExit(before);
        assert InputSteps(before) + [] == InputSteps(before);
      } else {
        AnyExitRest(before);
        Assoc(LineSteps(before[0]), InputSteps(before[1..]), if AnyExit(before) then [] else InputSteps(after));
      }
    }
  }

  lemma AnyExitRest(lines: seq<string>)
    requires lines != [] && !HasExit(LineSteps(lines[0]))
    ensures AnyExit(lines) <==> AnyExit(lines[1..])
  {
    hide HasExit, LineSteps;
    if k :| 0 <= k < |lines| && HasExit(LineSteps(lines[k])) {
      assert lines[1..][k - 1] == lines[k];
    }
  }
}
