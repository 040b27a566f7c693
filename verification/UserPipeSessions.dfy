/** What clients type: every typed line is wired by the graph, and two sessions that end otherwise than their
    lines suggest. */
module UserPipeSessions {
  import opened Text
  import opened UserPipeHistory
  import opened UserPipes
  import opened UserPipeServer
  import PipeGraph
  import RegistryText
  import ServerParser
  import UserPipeGraph
  import opened UserPipeLines
  import UserPipeWiring

  lemma {:induction false} RequestsConcat(a: seq<Arrival>, b: seq<Arrival>)
    ensures RequestsOf(a + b) == RequestsOf(a) + RequestsOf(b)
    decreases |a|
  {
    hide RequestOf;
    if a == [] {
      assert a + b == b;
    } else {
      assert (a + b)[1..] == a[1..] + b;
      RequestsConcat(a[1..], b);
    }
  }

  /** Whatever clients have typed, when a connected client types one more line, everything it has done since it
      arrived is exactly what the graph of its typed commands says. */
  lemma TypedLineIsWired(inputs: seq<Arrival>, fd: nat, text: string) returns (j: nat)
    ensures fd in Run(EMPTY_SERVER, RequestsOf(inputs)).ids ==>
              var requests := RequestsOf(inputs);
              && j < |requests| && requests[j] == Connect(fd)
              && var s1 := Run(EMPTY_SERVER, requests[..j + 1]);
                 var h := Run(EMPTY_SERVER, RequestsOf(inputs + [Received(fd, text)])).pool.history;
                 && fd in s1.ids && |s1.pool.history| <= |h|
                 && UserPipeGraph.Wired(h, |s1.pool.history|, s1.ids[fd],
                                        UserPipeWiring.ActionsIn(requests[j + 1..], fd) + ActionsOfText(text))
  {
    hide Run, ActionsOfText, UserPipeGraph.Wired, UserPipeWiring.ActionsIn;
    j := 0;
    RequestsConcat(inputs, [Received(fd, text)]);
    assert [Received(fd, text)][1..] == [];
    LineOfText(fd, text);
    assert RequestsOf([Received(fd, text)]) == [Line(fd, ActionsOfText(text))];
    if fd in Run(EMPTY_SERVER, RequestsOf(inputs)).ids {
      j := UserPipeWiring.EveryLineIsWired(RequestsOf(inputs), fd, ActionsOfText(text));
    }
  }

  // ---------- reading typed lines ----------

  lemma JoinWords(a: string, b: string, c: string, d: string)
    ensures Join([a, b]) == a + (" " + b)
    ensures Join([a, b, c]) == a + (" " + (b + (" " + c)))
    ensures Join([a, b, c, d]) == a + (" " + (b + (" " + (c + (" " + d)))))
  {
    assert [c, d][1..] == [d] && [b, c][1..] == [c] && [a, b][1..] == [b];
    assert [b, c, d][1..] == [c, d] && [a, b, c][1..] == [b, c] && [a, b, c, d][1..] == [b, c, d];
    assert Join([b, c]) == b + (" " + c) && Join([c, d]) == c + (" " + d);
  }

  lemma ShortNames()
    ensures CommandWords("ls", []) && !IsOwn("ls")
    ensures CommandWords("cat", []) && !IsOwn("cat")
  {
  }

  lemma Digits()
    ensures Decimal(1) == "1" && Decimal(2) == "2" && Decimal(9) == "9"
  {
  }

  /** A command without arguments, with one operator or two. */
  lemma ShortLine(a: Action, name: string, words: seq<string>)
    requires CommandWords(name, []) && !IsOwn(name)
    requires words == ActionWords(a, false) && Fits(Typed(name, [], a, false, []), [])
    ensures ActionsOfText(Join([name] + words)) == [a]
  {
    hide ActionsOfText, CommandWords, IsOwn;
    assert [name] + [] + (words + []) == [name] + words;
    OneTyped(Typed(name, [], a, false, []), Join([name] + words));
  }

  /** `cat <9 | cat` */
  lemma TwoCats()
    ensures ActionsOfText(Join(["cat", "<" + Decimal(9), "|", "cat"]))
         == [Receive("cat", [], 9, PipeGraph.ToNext), Plain("cat", [], PipeGraph.ToConsole)]
  {
    hide ActionsOfText, CommandWords, IsOwn, Decimal;
    ShortNames();
    var cat := Typed("cat", [], Receive("cat", [], 9, PipeGraph.ToNext), false, []);
    var last := Typed("cat", [], Plain("cat", [], PipeGraph.ToConsole), false, []);
    var cs := [ServerParser.Command("cat", [], ["<" + Decimal(9), "|"]), ServerParser.Command("cat", [], [])];
    assert cs[0] == Written(cat) && cs[1] == Written(last);
    assert AllWritten([cat, last]) + [] == cs;
    assert AllFit([cat, last], []) by {
      assert AllWritten([cat, last])[2..] + [] == [];
    }
    assert Typeable([cat, last], []);
    assert Actions([cat, last]) == [cat.action, last.action];
    hide Typeable, AllFit, Written, Actions, AllWritten;
    JoinedTokens([cat, last], []);
    TypedActions([cat, last], [], Join(ServerParser.Flatten(cs)));
    CatWords("<" + Decimal(9));
  }

  lemma CatWords(op: string)
    ensures var cs := [ServerParser.Command("cat", [], [op, "|"]), ServerParser.Command("cat", [], [])];
            ServerParser.Flatten(cs) == ["cat", op, "|", "cat"]
  {
    var last := [ServerParser.Command("cat", [], [])];
    assert [ServerParser.Command("cat", [], [op, "|"]), last[0]][1..] == last && last[1..] == [];
    assert ServerParser.Flatten(last) == ["cat"];
  }

  lemma TypedLines()
    ensures ActionsOfText("ls |1") == [Plain("ls", [], PipeGraph.ToSession(1, false))]
    ensures ActionsOfText("ls >2") == [Send("ls", [], 2)]
    ensures ActionsOfText("cat <9") == [Receive("cat", [], 9, PipeGraph.ToConsole)]
    ensures ActionsOfText("cat <1 >") == [TakeOnly(1)]
    ensures ActionsOfText("cat <9 | cat")
         == [Receive("cat", [], 9, PipeGraph.ToNext), Plain("cat", [], PipeGraph.ToConsole)]
  {
    hide ActionsOfText, Decimal, Join, CommandWords, IsOwn;
    ShortNames();
    Digits();
    assert "|" + "1" == "|1" && ">" + "2" == ">2" && "<" + "9" == "<9" && "<" + "1" == "<1";
    JoinWords("ls", "|1", "", "");
    ShortLine(Plain("ls", [], PipeGraph.ToSession(1, false)), "ls", ["|" + Decimal(1)]);
    assert ["ls"] + ["|" + "1"] == ["ls", "|1"] && "ls" + (" " + "|1") == "ls |1";
    JoinWords("ls", ">2", "", "");
    ShortLine(Send("ls", [], 2), "ls", [">" + Decimal(2)]);
    assert ["ls"] + [">" + "2"] == ["ls", ">2"] && "ls" + (" " + ">2") == "ls >2";
    JoinWords("cat", "<9", "|", "cat");
    ShortLine(Receive("cat", [], 9, PipeGraph.ToConsole), "cat", ["<" + Decimal(9)]);
    assert ["cat"] + ["<" + "9"] == ["cat", "<9"] && "cat" + (" " + "<9") == "cat <9";
    JoinWords("cat", "<1", ">", "");
    ShortLine(TakeOnly(1), "cat", ["<" + Decimal(1), ">"]);
    assert ["cat"] + ["<" + "1", ">"] == ["cat", "<1", ">"] && "cat" + (" " + ("<1" + (" " + ">"))) == "cat <1 >";
    TwoCats();
    assert "<" + "9" == "<9" && "cat" + (" " + ("<9" + (" " + ("|" + (" " + "cat"))))) == "cat <9 | cat";
  }

  // ---------- one more line on the running server ----------

  lemma LineOfText(fd: nat, text: string)
    ensures RequestOf(Received(fd, text)) == Line(fd, ActionsOfText(text))
  {
  }

  lemma RunOne(s: Server, a: Request)
    ensures Run(s, [a]) == Step(s, a)
  {
    hide Step;
    assert [a][1..] == [];
  }

  lemma OneAction(s: Server, fd: nat, a: Action)
    requires fd in s.ids && fd in s.shells && !IsExit(a)
    ensures Step(s, Line(fd, [a])) == Put(s, fd, Act(s.ids.Values, s.ids[fd], LocalOf(s, fd), a))
  {
    ActOne(s.ids.Values, s.ids[fd], LocalOf(s, fd), [a]);
    assert [a][1..] == [];
    assert !Exits([a]);
    hide Act, Exits;
  }

  lemma OneMoreLine(inputs: seq<Arrival>, fd: nat, text: string, a: Action)
    requires ActionsOfText(text) == [a] && !IsExit(a)
    ensures var s := Run(EMPTY_SERVER, RequestsOf(inputs));
            fd in s.ids ==>
              && fd in s.shells
              && Run(EMPTY_SERVER, RequestsOf(inputs + [Received(fd, text)])).pool
                 == Act(s.ids.Values, s.ids[fd], LocalOf(s, fd), a).pool
  {
    hide Run, Step, Act, ActionsOfText, Sound;
    var s := Run(EMPTY_SERVER, RequestsOf(inputs));
    RequestsConcat(inputs, [Received(fd, text)]);
    assert [Received(fd, text)][1..] == [];
    LineOfText(fd, text);
    assert RequestsOf([Received(fd, text)]) == [Line(fd, [a])];
    UserPipeWiring.RunAppend(EMPTY_SERVER, RequestsOf(inputs), [Line(fd, [a])]);
    RunOne(s, Line(fd, [a]));
    RunIsLegal(RequestsOf(inputs));
    SoundShells(s);
    if fd in s.ids { OneAction(s, fd, a); }
  }

  /** What `<i` does, by what has happened so far. */
  function TakeEvent(h: seq<Event>, from: nat, me: nat): Event {
    if from !in Online(h) then NoUser(me, from)
    else if (from, me) in Waiting(h) then Loaded(Waiting(h)[(from, me)], (from, me))
    else Missing((from, me))
  }

  /** What `>j` does. */
  function SendEvent(h: seq<Event>, me: nat, to: nat, pipe: nat): Event {
    if to !in Online(h) then NoUser(me, to)
    else if (me, to) in Waiting(h) then Refused((me, to))
    else Created(pipe, (me, to))
  }

  /** A client types a command with `<i` and `>j`, in either order: the command reads what user i has sent to it, or
      nothing, and writes to user j, or to nowhere. */
  lemma ReadAndSendRuns(inputs: seq<Arrival>, fd: nat, text: string, name: string, args: seq<string>, from: nat, to: nat)
    requires CommandWords(name, args) && !IsOwn(name) && from >= 1 && to >= 1
    requires || Tokens(text) == [name] + args + ["<" + Decimal(from), ">" + Decimal(to)]
             || Tokens(text) == [name] + args + [">" + Decimal(to), "<" + Decimal(from)]
    ensures var s := Run(EMPTY_SERVER, RequestsOf(inputs));
            var h := s.pool.history;
            fd in s.ids && from in Online(h) ==>
              var me := s.ids[fd];
              var taken := TakeEvent(h, from, me);
              var sent := SendEvent(h + [taken], me, to, s.pool.issued);
              var input := if taken.Loaded? then Pipe(taken.pipe) else Null;
              var output := if sent.Created? then Pipe(sent.pipe) else Null;
              Run(EMPTY_SERVER, RequestsOf(inputs + [Received(fd, text)])).pool.history
              == h + [taken, sent, Forked(me, name, args, input, output, Terminal)]
  {
    hide Run, Act, ActionsOfText, Online, Waiting, CommandWords, IsOwn, Tokens, Decimal;
    var a := SendReceive(name, args, from, to);
    ReadAndSend(name, args, from, to, text);
    OneMoreLine(inputs, fd, text, a);
    var s := Run(EMPTY_SERVER, RequestsOf(inputs));
    RunIsLegal(RequestsOf(inputs));
    if fd in s.ids && from in Online(s.pool.history) {
      ReadAndSendActs(s.ids.Values, s.ids[fd], LocalOf(s, fd), a);
    }
  }

  lemma AfterOne(h: seq<Event>, e: Event)
    ensures Online(h + [e]) == OnlineAfter(Online(h), e) && Waiting(h + [e]) == WaitingAfter(Waiting(h), e)
  {
    assert (h + [e])[..|h|] == h;
  }

  lemma ReadAndSendActs(users: set<nat>, me: nat, l: Local, a: Action)
    requires a.SendReceive? && a.from in users
    requires users == Online(l.pool.history) && l.pool.waiting == Waiting(l.pool.history)
    ensures var h := l.pool.history;
            var taken := TakeEvent(h, a.from, me);
            var sent := SendEvent(h + [taken], me, a.to, l.pool.issued);
            var input := if taken.Loaded? then Pipe(taken.pipe) else Null;
            var output := if sent.Created? then Pipe(sent.pipe) else Null;
            Act(users, me, l, a).pool.history == h + [taken, sent, Forked(me, a.name, a.args, input, output, Terminal)]
  {
    AfterOne(l.pool.history, TakeEvent(l.pool.history, a.from, me));
    hide Online, Waiting, NewSession;
  }

  /** A client types a command with `>j` alone, or with `<i` alone. */
  lemma SendRuns(inputs: seq<Arrival>, fd: nat, text: string, name: string, args: seq<string>, to: nat)
    requires CommandWords(name, args) && !IsOwn(name) && to >= 1
    requires Tokens(text) == [name] + args + [">" + Decimal(to)]
    ensures var s := Run(EMPTY_SERVER, RequestsOf(inputs));
            var h, h' := s.pool.history, Run(EMPTY_SERVER, RequestsOf(inputs + [Received(fd, text)])).pool.history;
            fd in s.ids ==>
              var me := s.ids[fd];
              var sent := SendEvent(h, me, to, s.pool.issued);
              && |h'| == |h| + 2 && h' == h + [sent, h'[|h| + 1]] && h'[|h| + 1].Forked?
              && h'[|h| + 1] == Forked(me, name, args, h'[|h| + 1].input, if sent.Created? then Pipe(sent.pipe) else Null, Terminal)
  {
    hide Run, Act, ActionsOfText, Online, Waiting, CommandWords, IsOwn, Tokens, Decimal;
    var a := Send(name, args, to);
    assert ActionWords(a, false) + [] == [">" + Decimal(to)];
    OneTyped(Typed(name, args, a, false, []), text);
    OneMoreLine(inputs, fd, text, a);
    var s := Run(EMPTY_SERVER, RequestsOf(inputs));
    RunIsLegal(RequestsOf(inputs));
    if fd in s.ids {
      SendActs(s.ids.Values, s.ids[fd], LocalOf(s, fd), a);
    }
  }

  lemma SendActs(users: set<nat>, me: nat, l: Local, a: Action)
    requires a.Send? && users == Online(l.pool.history) && l.pool.waiting == Waiting(l.pool.history)
    ensures var sent := SendEvent(l.pool.history, me, a.to, l.pool.issued);
            var output := if sent.Created? then Pipe(sent.pipe) else Null;
            Act(users, me, l, a).pool.history
            == l.pool.history + [sent, Forked(me, a.name, a.args, Input(l.shell, false), output, Terminal)]
  {
    hide Online, Waiting, NewSession;
  }

  lemma ReceiveRuns(inputs: seq<Arrival>, fd: nat, text: string, name: string, args: seq<string>, from: nat)
    requires CommandWords(name, args) && !IsOwn(name) && from >= 1
    requires Tokens(text) == [name] + args + ["<" + Decimal(from)]
    ensures var s := Run(EMPTY_SERVER, RequestsOf(inputs));
            var h := s.pool.history;
            fd in s.ids && from in Online(h) ==>
              var me := s.ids[fd];
              var taken := TakeEvent(h, from, me);
              var input := if taken.Loaded? then Pipe(taken.pipe) else Null;
              Run(EMPTY_SERVER, RequestsOf(inputs + [Received(fd, text)])).pool.history
              == h + [taken, Forked(me, name, args, input, Terminal, Terminal)]
  {
    hide Run, Act, ActionsOfText, Online, Waiting, CommandWords, IsOwn, Tokens, Decimal;
    var a := Receive(name, args, from, PipeGraph.ToConsole);
    assert ActionWords(a, false) + [] == ["<" + Decimal(from)];
    OneTyped(Typed(name, args, a, false, []), text);
    OneMoreLine(inputs, fd, text, a);
    var s := Run(EMPTY_SERVER, RequestsOf(inputs));
    RunIsLegal(RequestsOf(inputs));
    if fd in s.ids && from in Online(s.pool.history) {
      ReceiveActs(s.ids.Values, s.ids[fd], LocalOf(s, fd), a);
    }
  }

  lemma ReceiveActs(users: set<nat>, me: nat, l: Local, a: Action)
    requires a.Receive? && a.from in users && a.out.ToConsole?
    requires users == Online(l.pool.history) && l.pool.waiting == Waiting(l.pool.history)
    ensures var taken := TakeEvent(l.pool.history, a.from, me);
            var input := if taken.Loaded? then Pipe(taken.pipe) else Null;
            Act(users, me, l, a).pool.history == l.pool.history + [taken, Forked(me, a.name, a.args, input, Terminal, Terminal)]
  {
    hide Online, Waiting, NewSession;
  }

  /** A client types `name w`: it has that name from then on, unless somebody has it already. */
  lemma NameRuns(inputs: seq<Arrival>, fd: nat, text: string, w: string)
    requires ServerParser.IsItem(w) && Tokens(text) == ["name", w]
    ensures var s := Run(EMPTY_SERVER, RequestsOf(inputs));
            var names := NamesOf(s.pool.history);
            var names' := NamesOf(Run(EMPTY_SERVER, RequestsOf(inputs + [Received(fd, text)])).pool.history);
            fd in s.ids ==> names' == if w in names.Values then names else names[s.ids[fd] := w]
  {
    hide Run, Act, ActionsOfText, NamesOf, NamesAfter, Online, Waiting, Sound, ServerParser.IsItem;
    var a := Own("name", [w]);
    NameLine(w, text);
    OneMoreLine(inputs, fd, text, a);
    var s := Run(EMPTY_SERVER, RequestsOf(inputs));
    RunIsLegal(RequestsOf(inputs));
    NamesDiffer(s.pool.history);
    if fd in s.ids {
      NameActs(s.ids.Values, s.ids[fd], LocalOf(s, fd), w);
    }
  }

  lemma NameActs(users: set<nat>, me: nat, l: Local, w: string)
    requires ServerParser.IsItem(w) && me in NamesOf(l.pool.history)
    ensures var names := NamesOf(l.pool.history);
            NamesOf(Act(users, me, l, Own("name", [w])).pool.history) == if w in names.Values then names else names[me := w]
  {
    NamedAfter(l.pool.history, Ran(me, "name", [w]));
    hide NamesOf, NewSession, ServerParser.IsOperator;
  }

  lemma NameLine(w: string, text: string)
    requires ServerParser.IsItem(w) && Tokens(text) == ["name", w]
    ensures ActionsOfText(text) == [Own("name", [w])]
  {
    hide ActionsOfText, Tokens;
    assert ["name"] + [w] + ([] + []) == ["name", w];
    OneTyped(Typed("name", [w], Own("name", [w]), false, []), text);
  }

  /** A client types `exit`: it is gone, and so is its id. */
  lemma ExitRuns(inputs: seq<Arrival>, fd: nat, text: string)
    requires Tokens(text) == ["exit"]
    ensures var s := Run(EMPTY_SERVER, RequestsOf(inputs));
            var s' := Run(EMPTY_SERVER, RequestsOf(inputs + [Received(fd, text)]));
            fd in s.ids ==>
              && s'.ids == s.ids - {fd} && s'.shells == s.shells - {fd}
              && s'.pool.history == s.pool.history + [Ran(s.ids[fd], "exit", []), Left(s.ids[fd])]
  {
    hide Run, Step, ActionsOfText, Sound, Online, Waiting, Tokens;
    var a := Own("exit", []);
    assert ["exit"] + [] + ([] + []) == ["exit"];
    OneTyped(Typed("exit", [], a, false, []), text);
    var s := Run(EMPTY_SERVER, RequestsOf(inputs));
    RequestsConcat(inputs, [Received(fd, text)]);
    assert [Received(fd, text)][1..] == [];
    LineOfText(fd, text);
    assert RequestsOf([Received(fd, text)]) == [Line(fd, [a])];
    UserPipeWiring.RunAppend(EMPTY_SERVER, RequestsOf(inputs), [Line(fd, [a])]);
    RunOne(s, Line(fd, [a]));
    RunIsLegal(RequestsOf(inputs));
    SoundShells(s);
    if fd in s.ids { ExitStep(s, fd); }
  }

  lemma ExitStep(s: Server, fd: nat)
    requires fd in s.ids && fd in s.shells
    ensures var s' := Step(s, Line(fd, [Own("exit", [])]));
            && s'.ids == s.ids - {fd} && s'.shells == s.shells - {fd}
            && s'.pool.history == s.pool.history + [Ran(s.ids[fd], "exit", []), Left(s.ids[fd])]
  {
    var a := Own("exit", []);
    ActOne(s.ids.Values, s.ids[fd], LocalOf(s, fd), [a]);
    assert Exits([a]);
    hide Exits, NewSession;
  }

  /** A client connects: it is online under the lowest id that nobody has. */
  lemma ConnectRuns(inputs: seq<Arrival>, fd: nat, ipAddr: string) returns (id: nat)
    ensures var s := Run(EMPTY_SERVER, RequestsOf(inputs));
            var s' := Run(EMPTY_SERVER, RequestsOf(inputs + [Accepted(fd, ipAddr)]));
            var online := Online(s.pool.history);
            fd !in s.ids ==>
              && id >= 1 && id !in online && (forall i | 1 <= i < id :: i in online)
              && s'.ids == s.ids[fd := id] && s'.pool.history == s.pool.history + [Entered(id)]
  {
    var s := Run(EMPTY_SERVER, RequestsOf(inputs));
    id := RegistryText.LowestFree(s.ids.Values);
    RequestsConcat(inputs, [Accepted(fd, ipAddr)]);
    assert [Accepted(fd, ipAddr)][1..] == [];
    assert RequestsOf([Accepted(fd, ipAddr)]) == [Connect(fd)];
    RunIsLegal(RequestsOf(inputs));
    hide Run, Step, Sound, Online, Waiting, RegistryText.LowestFree, NewSession;
    UserPipeWiring.RunAppend(EMPTY_SERVER, RequestsOf(inputs), [Connect(fd)]);
    RunOne(s, Connect(fd));
    if fd !in s.ids { Connects(s, fd); }
  }

  // ---------- two sessions ----------

  const ALONE := Shell(1, Terminal, Terminal, Terminal, map[])

  lemma FirstIds()
    ensures RegistryText.LowestFree({}) == 1 && RegistryText.LowestFree({1}) == 2
  {
    hide RegistryText.LowestFree;
    var two := RegistryText.LowestFree({1});
    assert RegistryText.IsLowestFree({1}, two);
    assert two <= 2 && two != 1;
  }

  lemma FirstEnters(fd: nat)
    ensures Enter(EMPTY_SERVER, fd) == Server(map[fd := 1], map[fd := ALONE], Pool(map[], 0, {}, [Entered(1)]))
  {
    FirstIds();
    NoMailboxes();
    hide RegistryText.LowestFree, NewSession;
    assert EMPTY_SERVER.ids.Values == {};
  }

  lemma SecondEnters(fd: nat, other: nat)
    requires fd != other
    ensures Enter(Enter(EMPTY_SERVER, fd), other)
         == Server(map[fd := 1, other := 2], map[fd := ALONE, other := ALONE], Pool(map[], 0, {}, [Entered(1), Entered(2)]))
  {
    FirstIds();
    FirstEnters(fd);
    NoMailboxes();
    hide RegistryText.LowestFree, NewSession;
    assert map[fd := 1].Values == {1};
  }

  lemma TwoActions(s: Server, fd: nat, a: Action, b: Action)
    requires fd in s.ids && fd in s.shells && !a.Own? && !b.Own?
    ensures Step(s, Line(fd, [a, b])) ==
            Put(s, fd, Act(s.ids.Values, s.ids[fd], Act(s.ids.Values, s.ids[fd], LocalOf(s, fd), a), b))
  {
    assert [a, b][1..] == [b];
    ActOne(s.ids.Values, s.ids[fd], Act(s.ids.Values, s.ids[fd], LocalOf(s, fd), a), [b]);
    assert [b][1..] == [];
    assert !Exits([b]) && !Exits([a, b]);
    hide Act, Exits;
  }

  lemma ThreeInputs(a: Arrival, b: Arrival, c: Arrival)
    ensures RequestsOf([a, b, c]) == [RequestOf(a), RequestOf(b), RequestOf(c)]
  {
    hide RequestOf;
    assert [a, b, c][1..] == [b, c] && [b, c][1..] == [c] && [c][1..] == [];
    assert RequestsOf([c]) == [RequestOf(c)];
    assert RequestsOf([b, c]) == [RequestOf(b), RequestOf(c)];
  }

  lemma RunTwo(s: Server, a: Request, b: Request)
    ensures Run(s, [a, b]) == Step(Step(s, a), b)
  {
    assert [a, b][1..] == [b];
    hide Step;
    RunOne(Step(s, a), b);
  }

  lemma RunThree(s: Server, a: Request, b: Request, c: Request)
    ensures Run(s, [a, b, c]) == Step(Step(Step(s, a), b), c)
  {
    assert [a, b, c][1..] == [b, c];
    hide Step;
    RunTwo(Step(s, a), b, c);
  }

  /** The only client, with id 1. */
  function Single(fd: nat, l: Local): Server {
    Server(map[fd := 1], map[fd := l.shell], l.pool)
  }

  lemma SingleOne(fd: nat, l: Local, a: Action)
    requires !a.Own?
    ensures Step(Single(fd, l), Line(fd, [a])) == Single(fd, Act({1}, 1, l, a))
  {
    hide Step, Act;
    assert Single(fd, l).ids[fd] == 1;
    assert Single(fd, l).ids.Values == {1};
    OneAction(Single(fd, l), fd, a);
  }

  lemma SingleTwo(fd: nat, l: Local, a: Action, b: Action)
    requires !a.Own? && !b.Own?
    ensures Step(Single(fd, l), Line(fd, [a, b])) == Single(fd, Act({1}, 1, Act({1}, 1, l, a), b))
  {
    hide Step, Act;
    assert Single(fd, l).ids[fd] == 1;
    assert Single(fd, l).ids.Values == {1};
    TwoActions(Single(fd, l), fd, a, b);
  }

  /** `ls |1`, and in the next line `cat <9 | cat` without a user 9: the second cat reads from ls, and nobody
      reads what the first cat writes. */
  lemma DisplacedSession(fd: nat, ipAddr: string)
    ensures Run(EMPTY_SERVER, RequestsOf([Accepted(fd, ipAddr), Received(fd, "ls |1"), Received(fd, "cat <9 | cat")]))
              .pool.history
         == [Entered(1), Forked(1, "ls", [], Terminal, Pipe(0), Terminal),
             NoUser(1, 9), Forked(1, "cat", [], Null, Pipe(1), Terminal), Forked(1, "cat", [], Pipe(0), Terminal, Terminal)]
  {
    hide Run, Step, Act, Enter, ActionsOfText;
    var ls := Plain("ls", [], PipeGraph.ToSession(1, false));
    var cat, last := Receive("cat", [], 9, PipeGraph.ToNext), Plain("cat", [], PipeGraph.ToConsole);
    DisplacedRequests(fd, ipAddr);
    RunThree(EMPTY_SERVER, Connect(fd), Line(fd, [ls]), Line(fd, [cat, last]));
    Connects(EMPTY_SERVER, fd);
    FirstEnters(fd);
    var l1 := Local(ALONE, Pool(map[], 0, {}, [Entered(1)]));
    SingleOne(fd, l1, ls);
    LsActs(l1.pool);
    var l2 := Act({1}, 1, l1, ls);
    SingleTwo(fd, l2, cat, last);
    CatsAct(l2);
  }

  lemma DisplacedRequests(fd: nat, ipAddr: string)
    ensures RequestsOf([Accepted(fd, ipAddr), Received(fd, "ls |1"), Received(fd, "cat <9 | cat")])
         == [Connect(fd), Line(fd, [Plain("ls", [], PipeGraph.ToSession(1, false))]),
             Line(fd, [Receive("cat", [], 9, PipeGraph.ToNext), Plain("cat", [], PipeGraph.ToConsole)])]
  {
    hide ActionsOfText;
    TypedLines();
    ThreeInputs(Accepted(fd, ipAddr), Received(fd, "ls |1"), Received(fd, "cat <9 | cat"));
    LineOfText(fd, "ls |1");
    LineOfText(fd, "cat <9 | cat");
  }

  lemma Connects(s: Server, fd: nat)
    requires fd !in s.ids
    ensures Step(s, Connect(fd)) == Enter(s, fd)
  {
  }

  lemma LsActs(pool: Pool)
    requires pool == Pool(map[], 0, {}, [Entered(1)])
    ensures Act({1}, 1, Local(ALONE, pool), Plain("ls", [], PipeGraph.ToSession(1, false)))
         == Local(Shell(2, Terminal, Pipe(0), Terminal, map[]),
                  Pool(map[], 1, {0}, [Entered(1), Forked(1, "ls", [], Terminal, Pipe(0), Terminal)]))
  {
    var r := Reserve(Local(ALONE, pool), 2);
    assert r == Local(ALONE.(table := map[2 := 0]), Pool(map[], 1, {0}, pool.history));
    assert map[2 := 0] - {1} == map[2 := 0] && map[2 := 0] - {2} == map[];
  }

  lemma CatsAct(l: Local)
    requires l.shell == Shell(2, Terminal, Pipe(0), Terminal, map[]) && l.pool.waiting == map[] && l.pool.issued == 1
    ensures Act({1}, 1, Act({1}, 1, l, Receive("cat", [], 9, PipeGraph.ToNext)), Plain("cat", [], PipeGraph.ToConsole))
              .pool.history
         == l.pool.history + [NoUser(1, 9), Forked(1, "cat", [], Null, Pipe(1), Terminal),
                              Forked(1, "cat", [], Pipe(0), Terminal, Terminal)]
  {
    hide NewSession;
  }

  /** Two clients, with ids 1 and 2. */
  function Pair(fd: nat, other: nat, sh1: Shell, sh2: Shell, pool: Pool): Server {
    Server(map[fd := 1, other := 2], map[fd := sh1, other := sh2], pool)
  }

  lemma PairIds(fd: nat, other: nat, sh1: Shell, sh2: Shell, pool: Pool)
    requires fd != other
    ensures Pair(fd, other, sh1, sh2, pool).ids.Values == {1, 2}
  {
    var ids := Pair(fd, other, sh1, sh2, pool).ids;
    assert ids[fd] == 1 && ids[other] == 2;
  }

  lemma FirstActs(fd: nat, other: nat, sh1: Shell, sh2: Shell, pool: Pool, a: Action)
    requires fd != other && !a.Own?
    ensures var l := Act({1, 2}, 1, Local(sh1, pool), a);
            Step(Pair(fd, other, sh1, sh2, pool), Line(fd, [a])) == Pair(fd, other, l.shell, sh2, l.pool)
  {
    hide Step, Act;
    PairIds(fd, other, sh1, sh2, pool);
    OneAction(Pair(fd, other, sh1, sh2, pool), fd, a);
  }

  lemma SecondActs(fd: nat, other: nat, sh1: Shell, sh2: Shell, pool: Pool, a: Action)
    requires fd != other && !a.Own?
    ensures var l := Act({1, 2}, 2, Local(sh2, pool), a);
            Step(Pair(fd, other, sh1, sh2, pool), Line(other, [a])) == Pair(fd, other, sh1, l.shell, l.pool)
  {
    hide Step, Act;
    PairIds(fd, other, sh1, sh2, pool);
    OneAction(Pair(fd, other, sh1, sh2, pool), other, a);
  }

  const BOTH_ENTERED := Pool(map[], 0, {}, [Entered(1), Entered(2)])

  lemma LsActsAsSender()
    ensures Act({1, 2}, 1, Local(ALONE, BOTH_ENTERED), Send("ls", [], 2))
         == Local(NewSession(ALONE),
                  Pool(map[(1, 2) := 0], 1, {0}, BOTH_ENTERED.history
                       + [Created(0, (1, 2)), Forked(1, "ls", [], Terminal, Pipe(0), Terminal)]))
  {
    hide NewSession;
  }

  lemma TakeActs(pool: Pool)
    requires pool.waiting == map[(1, 2) := 0]
    ensures Act({1, 2}, 2, Local(ALONE, pool), TakeOnly(1))
         == Local(ALONE.(taken := Pipe(0)), pool.(waiting := map[], history := pool.history + [Loaded(0, (1, 2))]))
  {
    assert map[(1, 2) := 0] - {(1, 2)} == map[];
  }

  lemma HeldActs(pool: Pool)
    ensures Act({1, 2}, 2, Local(ALONE.(taken := Pipe(0)), pool), Receive("cat", [], 9, PipeGraph.ToConsole)).pool.history
         == pool.history + [NoUser(2, 9), Forked(2, "cat", [], Pipe(0), Terminal, Terminal)]
  {
    hide NewSession;
  }

  lemma HeldRequests(fd: nat, other: nat, ipAddr: string)
    ensures RequestsOf([Received(fd, "ls >2"), Received(other, "cat <1 >"), Received(other, "cat <9")])
         == [Line(fd, [Send("ls", [], 2)]), Line(other, [TakeOnly(1)]),
             Line(other, [Receive("cat", [], 9, PipeGraph.ToConsole)])]
  {
    hide ActionsOfText;
    TypedLines();
    ThreeInputs(Received(fd, "ls >2"), Received(other, "cat <1 >"), Received(other, "cat <9"));
    LineOfText(fd, "ls >2");
    LineOfText(other, "cat <1 >");
    LineOfText(other, "cat <9");
  }

  lemma TwoEntered(fd: nat, other: nat)
    requires fd != other
    ensures Run(EMPTY_SERVER, [Connect(fd), Connect(other)]) == Pair(fd, other, ALONE, ALONE, BOTH_ENTERED)
  {
    hide Step, Enter;
    RunTwo(EMPTY_SERVER, Connect(fd), Connect(other));
    Connects(EMPTY_SERVER, fd);
    FirstEnters(fd);
    Connects(Enter(EMPTY_SERVER, fd), other);
    SecondEnters(fd, other);
  }

  lemma LsSends(fd: nat, other: nat)
    requires fd != other
    ensures Step(Pair(fd, other, ALONE, ALONE, BOTH_ENTERED), Line(fd, [Send("ls", [], 2)]))
         == Pair(fd, other, NewSession(ALONE), ALONE, Pool(map[(1, 2) := 0], 1, {0}, BOTH_ENTERED.history
                 + [Created(0, (1, 2)), Forked(1, "ls", [], Terminal, Pipe(0), Terminal)]))
  {
    hide Step, Act, NewSession, Pair;
    FirstActs(fd, other, ALONE, ALONE, BOTH_ENTERED, Send("ls", [], 2));
    LsActsAsSender();
  }

  lemma CatTakes(fd: nat, other: nat, sh1: Shell, pool: Pool)
    requires fd != other && pool.waiting == map[(1, 2) := 0]
    ensures Step(Pair(fd, other, sh1, ALONE, pool), Line(other, [TakeOnly(1)]))
         == Pair(fd, other, sh1, ALONE.(taken := Pipe(0)),
                 pool.(waiting := map[], history := pool.history + [Loaded(0, (1, 2))]))
  {
    hide Step, Act, Pair;
    SecondActs(fd, other, sh1, ALONE, pool, TakeOnly(1));
    TakeActs(pool);
  }

  lemma CatReads(fd: nat, other: nat, sh1: Shell, pool: Pool)
    requires fd != other
    ensures Step(Pair(fd, other, sh1, ALONE.(taken := Pipe(0)), pool),
                 Line(other, [Receive("cat", [], 9, PipeGraph.ToConsole)])).pool.history
         == pool.history + [NoUser(2, 9), Forked(2, "cat", [], Pipe(0), Terminal, Terminal)]
  {
    hide Step, Act;
    SecondActs(fd, other, sh1, ALONE.(taken := Pipe(0)), pool, Receive("cat", [], 9, PipeGraph.ToConsole));
    HeldActs(pool);
  }

  lemma HeldLines(fd: nat, other: nat)
    requires fd != other
    ensures Run(Pair(fd, other, ALONE, ALONE, BOTH_ENTERED),
                [Line(fd, [Send("ls", [], 2)]), Line(other, [TakeOnly(1)]),
                 Line(other, [Receive("cat", [], 9, PipeGraph.ToConsole)])]).pool.history
         == [Entered(1), Entered(2), Created(0, (1, 2)), Forked(1, "ls", [], Terminal, Pipe(0), Terminal),
             Loaded(0, (1, 2)), NoUser(2, 9), Forked(2, "cat", [], Pipe(0), Terminal, Terminal)]
  {
    hide Run, Step, NewSession, Pair;
    var sent := Pool(map[(1, 2) := 0], 1, {0}, BOTH_ENTERED.history
                     + [Created(0, (1, 2)), Forked(1, "ls", [], Terminal, Pipe(0), Terminal)]);
    RunThree(Pair(fd, other, ALONE, ALONE, BOTH_ENTERED), Line(fd, [Send("ls", [], 2)]), Line(other, [TakeOnly(1)]),
             Line(other, [Receive("cat", [], 9, PipeGraph.ToConsole)]));
    LsSends(fd, other);
    CatTakes(fd, other, NewSession(ALONE), sent);
    CatReads(fd, other, NewSession(ALONE), sent.(waiting := map[], history := sent.history + [Loaded(0, (1, 2))]));
  }

  /** User 1 sends with `ls >2`; user 2 takes that pipe with `cat <1 >`, a line that is given up for lack of a
      file name; and its `cat <9` then reads what user 1 sent, although there is no user 9. */
  lemma HeldSession(fd: nat, other: nat, ipAddr: string)
    requires fd != other
    ensures Run(EMPTY_SERVER, RequestsOf([Accepted(fd, ipAddr), Accepted(other, ipAddr)]
                + [Received(fd, "ls >2"), Received(other, "cat <1 >"), Received(other, "cat <9")])).pool.history
         == [Entered(1), Entered(2), Created(0, (1, 2)), Forked(1, "ls", [], Terminal, Pipe(0), Terminal),
             Loaded(0, (1, 2)), NoUser(2, 9), Forked(2, "cat", [], Pipe(0), Terminal, Terminal)]
  {
    hide Run, Step, Pair, RequestsOf;
    RequestsConcat([Accepted(fd, ipAddr), Accepted(other, ipAddr)],
                   [Received(fd, "ls >2"), Received(other, "cat <1 >"), Received(other, "cat <9")]);
    TwoRequests(fd, other, ipAddr);
    HeldRequests(fd, other, ipAddr);
    UserPipeWiring.RunAppend(EMPTY_SERVER, [Connect(fd), Connect(other)],
                             [Line(fd, [Send("ls", [], 2)]), Line(other, [TakeOnly(1)]),
                              Line(other, [Receive("cat", [], 9, PipeGraph.ToConsole)])]);
    TwoEntered(fd, other);
    HeldLines(fd, other);
  }

  lemma TwoRequests(fd: nat, other: nat, ipAddr: string)
    ensures RequestsOf([Accepted(fd, ipAddr), Accepted(other, ipAddr)]) == [Connect(fd), Connect(other)]
  {
    var last := [Accepted(other, ipAddr)];
    assert last[1..] == [];
    assert RequestsOf(last) == [Connect(other)];
    assert [Accepted(fd, ipAddr), Accepted(other, ipAddr)][1..] == last;
  }
}
