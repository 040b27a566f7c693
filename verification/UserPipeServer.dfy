/** The single-process server: `PipeManager` with user pipes, `NPShell::execute`, and the order in which the
    server updates the registry, the shells and the user pipes. */
module UserPipeServer {
  import opened Text
  import opened UserPipeHistory
  import opened UserPipes
  import OnlineUsers
  import PipeGraph
  import RegistryText
  import ServerParser
  import UserPipeWriters

  /** What all shells share: the static map of user pipes, and the operating system's pipes. A slot holds a
      pipe, or `/dev/null`, or nothing, which is written `Terminal`. */
  class Shared {
    var userPipeMap: map<Key, nat>
    var issued: nat
    var open: set<nat>
    ghost var history: seq<Event>

    constructor ()
      ensures AsPool() == EMPTY_SERVER.pool
    {
      userPipeMap, issued, open, history := map[], 0, {}, [];
    }

    ghost function AsPool(): Pool
      reads this
    {
      Pool(userPipeMap, issued, open, history)
    }

    method Pipe() returns (p: nat)
      modifies this`issued, this`open
      ensures AsPool() == NewPipe(old(AsPool())) && p == old(issued)
    {
      p := issued;
      issued := issued + 1;
      open := open + {p};
    }

    /** Both ends; `UserPipes.ClosesOpenPipes` shows that they are open. */
    method Close(p: nat)
      modifies this`open
      ensures open == old(open) - {p}
    {
      open := open - {p};
    }

    ghost method Note(e: Event)
      modifies this`history
      ensures history == old(history) + [e]
    {
      history := history + [e];
    }

    /** The user's pipes are closed while their keys are collected, and the keys erased afterwards. */
    method CloseUserPipe(id: nat)
      modifies this`userPipeMap, this`open
      ensures AsPool() == CloseUser(old(AsPool()), id)
    {
      var deleteList: seq<Key> := [];
      var todo := userPipeMap.Keys;
      while todo != {}
        invariant todo <= userPipeMap.Keys && userPipeMap == old(userPipeMap)
        invariant forall key :: key in deleteList <==> key in userPipeMap.Keys - todo && Names(key, id)
        invariant open == old(open) - (set key | key in userPipeMap.Keys - todo && Names(key, id) :: userPipeMap[key])
        decreases |todo|
      {
        var key :| key in todo;
        if key.0 == id || key.1 == id {
          Close(userPipeMap[key]);
          deleteList := deleteList + [key];
        }
        todo := todo - {key};
      }
      ghost var before := userPipeMap;
      assert open == old(open) - PipesOf(before, id);
      var i := 0;
      while i < |deleteList|
        invariant i <= |deleteList|
        invariant forall key :: key in userPipeMap <==> key in before && key !in deleteList[..i]
        invariant forall key | key in userPipeMap :: userPipeMap[key] == before[key]
        invariant open == old(open) - PipesOf(before, id)
      {
        userPipeMap := userPipeMap - {deleteList[i]};
        i := i + 1;
      }
      assert deleteList[..i] == deleteList;
      assert userPipeMap == WithoutUser(before, id);
    }
  }

  datatype PipeMode =
    | NoMode | NormalPipe | FileOutput | ConsoleOutput | NumberedPipe | NumberedPipeStderr
    | UserPipeOut | UserPipeIn | UserPipeBoth
  {
    predicate FromUser() {
      UserPipeIn? || UserPipeBoth?
    }

    predicate ToUser() {
      UserPipeOut? || UserPipeBoth?
    }

    predicate Numbered() {
      NumberedPipe? || NumberedPipeStderr?
    }
  }

  class PipeManager {
    const shared: Shared
    ghost const owner: nat
    var currentPipe: Stream
    var newPipe: Stream
    var currentNumberedPipe: Stream
    var newNumberedPipe: Stream
    var currentUserPipe: Stream
    var newUserPipe: Stream
    var count: nat
    var countPipeMap: map<nat, nat>

    ghost function Slots(): Shell
      reads this
    {
      Shell(count, currentPipe, currentNumberedPipe, currentUserPipe, countPipeMap)
    }

    /** Between two commands, nothing has been prepared for an output. */
    ghost predicate Idle()
      reads this
    {
      newPipe == Terminal && newNumberedPipe == Terminal && newUserPipe == Terminal
    }

    /** Idle, with these slots. */
    ghost predicate Holds(slots: Shell)
      reads this
    {
      Idle() && Slots() == slots
    }

    constructor (shared: Shared, ghost owner: nat)
      ensures this.shared == shared && this.owner == owner && Holds(UserPipes.NewSession(BEFORE_FIRST_SESSION))
    {
      this.shared, this.owner := shared, owner;
      count, countPipeMap := 0, map[];
      currentPipe, currentNumberedPipe, currentUserPipe := Terminal, Terminal, Terminal;
      new;
      NewSession();
    }

    method NewSession()
      modifies this
      ensures Idle() && Slots() == UserPipes.NewSession(old(Slots()))
    {
      currentPipe, newPipe, newNumberedPipe, currentNumberedPipe := Terminal, Terminal, Terminal, Terminal;
      newUserPipe, currentUserPipe := Terminal, Terminal;
      countPipeMap := countPipeMap - {count};
      count := count + 1;
      if count in countPipeMap {
        currentNumberedPipe := Pipe(countPipeMap[count]);
        countPipeMap := countPipeMap - {count};
      }
    }

    method RootPipeHandler(mode: PipeMode, mode2: PipeMode)
      modifies this, shared`issued, shared`open
      ensures currentPipe == Input(old(Slots()), mode.FromUser())
      ensures Slots().(link := Terminal) == Feed(old(Slots()), mode.FromUser())
      ensures newNumberedPipe == old(newNumberedPipe) && newUserPipe == old(newUserPipe)
      ensures
        var normal := !mode.ToUser() && !mode.Numbered() && !mode2.Numbered() && (mode.NormalPipe? || mode2.NormalPipe?);
        && shared.AsPool() == (if normal then NewPipe(old(shared.AsPool())) else old(shared.AsPool()))
        && newPipe == if mode.ToUser() then (if newUserPipe == Terminal then Null else newUserPipe)
                      else if mode.Numbered() || mode2.Numbered() then newNumberedPipe
                      else if normal then Pipe(old(shared.issued))
                      else old(newPipe)
    {
      if mode.UserPipeIn? || mode.UserPipeBoth? {
        currentPipe := if currentUserPipe == Terminal then Null else currentUserPipe;
        currentUserPipe := Terminal;
      } else if currentNumberedPipe != Terminal {
        currentPipe := currentNumberedPipe;
        currentNumberedPipe := Terminal;
      }
      if mode.UserPipeOut? || mode.UserPipeBoth? {
        newPipe := if newUserPipe == Terminal then Null else newUserPipe;
      } else if mode.Numbered() || mode2.Numbered() {
        newPipe := newNumberedPipe;
      } else if mode.NormalPipe? || mode2.NormalPipe? {
        var p := shared.Pipe();
        newPipe := Pipe(p);
      }
    }

    method ParentPipeHandler(mode: PipeMode, mode2: PipeMode)
      modifies this`currentPipe, this`newPipe, shared`open
      ensures currentPipe == (if mode.NormalPipe? || mode2.NormalPipe? then old(newPipe) else old(currentPipe))
      ensures newPipe == Terminal && shared.AsPool() == CloseInput(old(shared.AsPool()), old(currentPipe))
    {
      if currentPipe.Pipe? {
        shared.Close(currentPipe.id);
      }
      if mode.NormalPipe? || mode2.NormalPipe? {
        currentPipe := newPipe;
      }
      newPipe := Terminal;
    }

    /** The three streams of the child. */
    method ChildPipeHandler(mode: PipeMode, mode2: PipeMode, outFilename: string)
      returns (input: Stream, output: Stream, err: Stream)
      ensures input == currentPipe
      ensures
        var toFile := mode.FileOutput? || mode2.FileOutput?;
        var toPipe := mode.NormalPipe? || mode2.NormalPipe? || mode.Numbered() || mode2.Numbered() || mode.ToUser();
        && output == (if toFile then File(outFilename) else if toPipe then newPipe else Terminal)
        && err == (if !toFile && (mode.NumberedPipeStderr? || mode2.NumberedPipeStderr?) then newPipe else Terminal)
    {
      input, output, err := Terminal, Terminal, Terminal;
      if currentPipe != Terminal {
        input := currentPipe;
      }
      if mode.FileOutput? || mode2.FileOutput? {
        output := File(outFilename);
        return;
      }
      if mode.NormalPipe? || mode.Numbered() || mode.ToUser() || mode2.NormalPipe? || mode2.Numbered() {
        output := newPipe;
        if mode.NumberedPipeStderr? || mode2.NumberedPipeStderr? {
          err := newPipe;
        }
      }
    }

    method AddNumberedPipe(countIn: nat)
      modifies this`countPipeMap, this`newNumberedPipe, shared`issued, shared`open
      ensures Local(Slots(), shared.AsPool()) == old(Reserve(Local(Slots(), shared.AsPool()), count + countIn))
      ensures newNumberedPipe == Pipe(countPipeMap[count + countIn])
    {
      var idx := count + countIn;
      if idx !in countPipeMap {
        var p := shared.Pipe();
        countPipeMap := countPipeMap[idx := p];
      }
      newNumberedPipe := Pipe(countPipeMap[idx]);
    }

    method AddUserPipe(fromId: nat, toId: nat) returns (ok: bool)
      modifies this`newUserPipe, shared`issued, shared`open, shared`userPipeMap
      ensures ok <==> (fromId, toId) !in old(shared.userPipeMap)
      ensures ok ==>
        && newUserPipe == Pipe(old(shared.issued))
        && shared.AsPool() == NewPipe(old(shared.AsPool())).(
             waiting := old(shared.userPipeMap)[(fromId, toId) := old(shared.issued)])
      ensures !ok ==> newUserPipe == Terminal && shared.AsPool() == old(shared.AsPool())
    {
      var key := (fromId, toId);
      newUserPipe := Terminal;
      if key in shared.userPipeMap {
        return false;
      }
      var p := shared.Pipe();
      newUserPipe := Pipe(p);
      shared.userPipeMap := shared.userPipeMap[key := p];
      return true;
    }

    method LoadUserPipe(fromId: nat, toId: nat) returns (ok: bool)
      modifies this`currentUserPipe, shared`userPipeMap
      ensures ok <==> (fromId, toId) in old(shared.userPipeMap)
      ensures currentUserPipe == if ok then Pipe(old(shared.userPipeMap)[(fromId, toId)]) else Terminal
      ensures shared.userPipeMap == old(shared.userPipeMap) - {(fromId, toId)}
    {
      var key := (fromId, toId);
      currentUserPipe := Terminal;
      if key !in shared.userPipeMap {
        return false;
      }
      currentUserPipe := Pipe(shared.userPipeMap[key]);
      shared.userPipeMap := shared.userPipeMap - {key};
      return true;
    }
  }

  /** The pipes that a client can be given have been opened before. */
  predicate Older(st: Stream, issued: nat) {
    st.Pipe? ==> st.id < issued
  }

  predicate OldInput(l: Local, fromUser: bool) {
    Older(Input(l.shell, fromUser), l.pool.issued)
  }

  ghost predicate Old(l: Local) {
    && Older(l.shell.link, l.pool.issued) && Older(l.shell.due, l.pool.issued) && Older(l.shell.taken, l.pool.issued)
    && (forall t | t in l.shell.table :: l.shell.table[t] < l.pool.issued)
    && (forall key | key in l.pool.waiting :: l.pool.waiting[key] < l.pool.issued)
  }

  lemma OldInputs(l: Local, fromUser: bool)
    requires Old(l)
    ensures OldInput(l, fromUser)
  {
  }

  lemma ReserveOld(l: Local, op: string, fromUser: bool)
    requires OldInput(l, fromUser) && (op == "" || ServerParser.IsOperator(op))
    ensures OutputOf(op).ToSession? ==> OldInput(Reserve(l, l.shell.session + OutputOf(op).ahead), fromUser)
  {
    hide OutputOf;
  }

  lemma TakeOld(users: set<nat>, me: nat, l: Local, from: nat)
    requires Old(l)
    ensures Old(Take(users, me, l, from))
  {
  }

  lemma ForkOld(me: nat, l: Local, name: string, args: seq<string>, fromUser: bool, out: Output)
    requires Old(l)
    ensures Old(Fork(me, l, name, args, fromUser, out))
  {
    hide Input;
  }

  lemma SendOld(users: set<nat>, me: nat, l: Local, name: string, args: seq<string>, fromUser: bool, to: nat)
    requires Old(l)
    ensures Old(SendTo(users, me, l, name, args, fromUser, to))
  {
    hide Input;
  }

  lemma ActOld(users: set<nat>, me: nat, l: Local, a: Action)
    requires Old(l)
    ensures Old(Act(users, me, l, a))
  {
    if a.Receive? || a.SendReceive? || a.TakeOnly? { TakeOld(users, me, l, a.from); }
    hide Take, Fork, SendTo, Old;
    match a
    case Own(_, _) => OwnOld(me, l, a);
    case Plain(name, args, out) => ForkOld(me, l, name, args, false, out);
    case Receive(name, args, from, out) => ForkOld(me, Take(users, me, l, from), name, args, true, out);
    case TakeOnly(_) =>
    case Send(name, args, to) => SendOld(users, me, l, name, args, false, to);
    case SendReceive(name, args, from, to) => SendOld(users, me, Take(users, me, l, from), name, args, true, to);
  }

  lemma OwnOld(me: nat, l: Local, a: Action)
    requires Old(l) && a.Own?
    ensures Old(EndSession(l.(pool := Note(l.pool, Ran(me, a.name, a.args)))))
  {
  }

  /** In a reachable server every pipe in a slot or a table is old. */
  lemma SoundOld(s: Server, fd: nat)
    requires Sound(s) && fd in s.shells
    ensures Old(LocalOf(s, fd))
  {
    assert Apart(s);
    hide Sound, Apart;
    var sh := s.shells[fd];
    PlaceOld(s, UserPipes.Link(fd));
    PlaceOld(s, UserPipes.Due(fd));
    PlaceOld(s, UserPipes.Taken(fd));
    forall t | t in sh.table ensures sh.table[t] < s.pool.issued { PlaceOld(s, UserPipes.Mailbox(fd, t)); }
    forall key | key in s.pool.waiting ensures s.pool.waiting[key] < s.pool.issued { PlaceOld(s, UserPipes.Waits(key)); }
  }

  lemma PlaceOld(s: Server, a: Place)
    requires Apart(s)
    ensures At(s, a).Pipe? ==> At(s, a).id < s.pool.issued
  {
  }

  /** The link is overwritten when the session ends. */
  lemma SessionForgetsLink(sh: Shell)
    ensures NewSession(sh) == NewSession(sh.(link := Terminal))
  {
  }

  /** `name`; without an argument nothing is done. */
  method NameCommand(users: OnlineUsers.UserManager, fd: nat, args: seq<string>)
    requires users.Valid() && fd in users.fdUserMap
    modifies users`nameUserMap, users.users`name
    ensures users.Valid()
    ensures users.Names() == NamesAfter(old(users.Names()), Ran(users.fdUserMap[fd].id, "name", args))
  {
    users.SocketKnown(fd);
    hide OnlineUsers.UserManager.Valid;
    if args != [] {
      var ok := users.SetNameById(users.fdUserMap[fd].id, args[0]);
    }
  }

  lemma OtherBuiltin(names: map<nat, string>, user: nat, name: string, args: seq<string>)
    requires name != "name"
    ensures NamesAfter(names, Ran(user, name, args)) == names
  {
  }

  class NPShell {
    const shared: Shared
    const pipeManager: PipeManager
    var exitFlag: bool

    ghost function View(): Local
      reads pipeManager, shared
    {
      Local(pipeManager.Slots(), shared.AsPool())
    }

    /** The state between two commands of the user's line. */
    ghost predicate Ready(users: OnlineUsers.UserManager, fd: nat)
      reads this, pipeManager, users, users.users
    {
      && pipeManager.shared == shared && pipeManager.Idle()
      && users.Valid() && fd in users.fdUserMap
    }

    constructor (shared: Shared, ghost owner: nat)
      ensures this.shared == shared && pipeManager.shared == shared && fresh(pipeManager) && !exitFlag
      ensures pipeManager.owner == owner && pipeManager.Holds(UserPipes.NewSession(BEFORE_FIRST_SESSION))
    {
      this.shared := shared;
      exitFlag := false;
      pipeManager := new PipeManager(shared, owner);
    }

    /** For every pair of modes, in the order in which the handlers look at them. */
    method ExecuteForkedCommand(ghost me: nat, name: string, args: seq<string>, mode: PipeMode, mode2: PipeMode,
                                outFilename: string)
      requires pipeManager.shared == shared && pipeManager.newPipe == Terminal
      requires OldInput(View(), mode.FromUser())
      modifies pipeManager, shared`issued, shared`open, shared`history
      ensures pipeManager.newPipe == Terminal
      ensures pipeManager.newNumberedPipe == old(pipeManager.newNumberedPipe)
      ensures pipeManager.newUserPipe == old(pipeManager.newUserPipe)
      ensures
        var toFile := mode.FileOutput? || mode2.FileOutput?;
        var toNext := mode.NormalPipe? || mode2.NormalPipe?;
        var numbered := mode.Numbered() || mode2.Numbered();
        var toUser := old(pipeManager.newUserPipe);
        var newPipe := if mode.ToUser() then (if toUser == Terminal then Null else toUser)
                       else if numbered then old(pipeManager.newNumberedPipe)
                       else if toNext then Pipe(old(shared.issued))
                       else Terminal;
        var output := if toFile then File(outFilename) else newPipe;
        var err := if !toFile && (mode.NumberedPipeStderr? || mode2.NumberedPipeStderr?) then newPipe else Terminal;
        var l := Start(me, old(View()), name, args, mode.FromUser(), output, err);
        && View().pool == (if toNext && !mode.ToUser() && !numbered then NewPipe(l.pool) else l.pool)
        && View().shell.(link := Terminal) == l.shell
        && (toNext ==> View().shell.link == newPipe)
        && (toNext && !mode.ToUser() && !numbered ==> View() == OpenLink(l))
    {
      pipeManager.RootPipeHandler(mode, mode2);
      var input, output, err := pipeManager.ChildPipeHandler(mode, mode2, outFilename);
      shared.Note(Forked(me, name, args, input, output, err));
      pipeManager.ParentPipeHandler(mode, mode2);
    }

    /** `>j`: the pipe is opened, or an error is shown. */
    method OpenUserPipe(users: OnlineUsers.UserManager, fd: nat, toUserId: nat)
      requires Ready(users, fd)
      modifies pipeManager`newUserPipe, shared
      ensures
        var ids, me := users.idUserMap.Keys, users.fdUserMap[fd].id;
        && shared.AsPool() == Open(ids, me, old(shared.AsPool()), toUserId)
        && pipeManager.newUserPipe == if CanOpen(ids, me, old(shared.AsPool()), toUserId) then Pipe(old(shared.issued))
                                      else Terminal
    {
      if toUserId !in users.idUserMap {
        shared.Note(NoUser(users.fdUserMap[fd].id, toUserId));
      } else {
        var me := users.fdUserMap[fd];
        ghost var p := shared.issued;
        var ok := pipeManager.AddUserPipe(me.id, toUserId);
        shared.Note(if ok then Created(p, (me.id, toUserId)) else Refused((me.id, toUserId)));
      }
    }

    /** `<i`: the pipe is taken, or an error is shown. */
    method TakeUserPipe(users: OnlineUsers.UserManager, fd: nat, fromUserId: nat)
      requires Ready(users, fd)
      modifies pipeManager`currentUserPipe, shared
      ensures View() == Take(users.idUserMap.Keys, users.fdUserMap[fd].id, old(View()), fromUserId)
    {
      if fromUserId !in users.idUserMap {
        shared.Note(NoUser(users.fdUserMap[fd].id, fromUserId));
      } else {
        var me := users.fdUserMap[fd];
        ghost var key := (fromUserId, me.id);
        ghost var before := shared.userPipeMap;
        var ok := pipeManager.LoadUserPipe(fromUserId, me.id);
        shared.Note(if ok then Loaded(before[key], key) else Missing(key));
        assert !ok ==> shared.userPipeMap == before;
      }
    }

    method EndSession()
      modifies pipeManager
      ensures pipeManager.Idle() && View() == UserPipes.EndSession(old(View()))
      ensures View() == UserPipes.EndSession(old(View()).(shell := old(View()).shell.(link := Terminal)))
    {
      SessionForgetsLink(pipeManager.Slots());
      pipeManager.NewSession();
    }

    /** The mode of an output operator; `|N` and `!N` reserve their mailbox. */
    method PrepareOutput(op: string) returns (mode: PipeMode)
      requires pipeManager.shared == shared && pipeManager.Idle() && (op == "" || ServerParser.IsOperator(op))
      modifies pipeManager, shared`issued, shared`open
      ensures pipeManager.newPipe == Terminal && pipeManager.newUserPipe == Terminal
      ensures
        match OutputOf(op)
        case ToNext => mode == NormalPipe && View() == old(View()) && pipeManager.Idle()
        case ToSession(ahead, withErr) =>
          var t := old(pipeManager.count) + ahead;
          && mode == (if withErr then NumberedPipeStderr else NumberedPipe)
          && View() == Reserve(old(View()), t) && pipeManager.newNumberedPipe == Pipe(View().shell.table[t])
        case _ => mode == (if op == ">" then FileOutput else ConsoleOutput) && View() == old(View()) && pipeManager.Idle()
    {
      hide Reserve;
      mode := ConsoleOutput;
      if op == "|" {
        mode := NormalPipe;
      } else if op == ">" {
        mode := FileOutput;
      } else if HasNumber(op, '|') || HasNumber(op, '!') {
        pipeManager.AddNumberedPipe(Number(op));
        mode := if op[0] == '!' then NumberedPipeStderr else NumberedPipe;
      }
    }

    /** A command of the user, given what its output operator asks for. */
    method ExecuteWithOutput(users: OnlineUsers.UserManager, fd: nat, name: string, args: seq<string>,
                             fromUser: bool, op: string, outFilename: string)
      requires Ready(users, fd) && (op == "" || ServerParser.IsOperator(op)) && OldInput(View(), fromUser)
      modifies pipeManager, shared
      ensures Ready(users, fd)
      ensures View() == Fork(users.fdUserMap[fd].id, old(View()), name, args, fromUser,
                             if op == ">" then PipeGraph.ToFile(outFilename) else OutputOf(op))
    {
      hide Start, UserPipes.NewSession, Reserve, OldInput, Input, OnlineUsers.UserManager.Valid, ServerParser.IsOperator;
      ghost var me, start := users.fdUserMap[fd].id, View();
      ReserveOld(start, op, fromUser);
      var mode := PrepareOutput(op);
      if fromUser {
        ExecuteForkedCommand(me, name, args, UserPipeIn, mode, outFilename);
      } else {
        ExecuteForkedCommand(me, name, args, mode, NoMode, outFilename);
      }
      if op != "|" {
        EndSession();
      }
    }

    /** A command that writes to a user. */
    method ExecuteToUser(users: OnlineUsers.UserManager, fd: nat, name: string, args: seq<string>, fromUser: bool,
                         toUserId: nat)
      requires Ready(users, fd) && OldInput(View(), fromUser)
      modifies pipeManager, shared
      ensures Ready(users, fd)
      ensures View() == SendTo(users.idUserMap.Keys, users.fdUserMap[fd].id, old(View()), name, args, fromUser, toUserId)
    {
      OpenUserPipe(users, fd, toUserId);
      ExecuteForkedCommand(users.fdUserMap[fd].id, name, args, if fromUser then UserPipeBoth else UserPipeOut, NoMode, "");
      EndSession();
    }

    /** Every builtin ends its session. */
    method EndOwn(ghost ids: set<nat>, ghost me: nat, name: string, args: seq<string>)
      requires pipeManager.shared == shared && pipeManager.Idle()
      modifies pipeManager, shared`history
      ensures pipeManager.Idle() && View() == Act(ids, me, old(View()), Own(name, args))
    {
      shared.Note(Ran(me, name, args));
      EndSession();
    }

    /** `exit` sets the flag, and `name` renames the user; the other builtins change neither. */
    method ExecuteBuiltin(users: OnlineUsers.UserManager, fd: nat, name: string, args: seq<string>)
      requires Ready(users, fd) && IsBuiltin(name)
      modifies this`exitFlag, pipeManager, shared`history, users`nameUserMap, users.users`name
      ensures Ready(users, fd) && exitFlag == (old(exitFlag) || name == "exit")
      ensures View() == Act(users.idUserMap.Keys, users.fdUserMap[fd].id, old(View()), Own(name, args))
      ensures users.Names() == NamesAfter(old(users.Names()), Ran(users.fdUserMap[fd].id, name, args))
    {
      hide OnlineUsers.UserManager.Valid, OnlineUsers.UserManager.Names, PipeManager.Idle, PipeManager.Slots, NamesAfter, Act;
      if name == "exit" {
        exitFlag := true;
      }
      if name == "name" {
        NameCommand(users, fd, args);
      } else {
        OtherBuiltin(users.Names(), users.fdUserMap[fd].id, name, args);
      }
      EndOwn(users.idUserMap.Keys, users.fdUserMap[fd].id, name, args);
    }

    /** What has been done of the line when its i-th command is over: that command, or, if the line ends with
        it, all that was left. */
    ghost predicate Did(users: OnlineUsers.UserManager, fd: nat, todo: seq<Action>, rest: seq<Action>, ended: bool,
                        before: Local)
      requires Ready(users, fd)
      reads users, users.users, this, pipeManager, shared
    {
      var ids, me := users.idUserMap.Keys, users.fdUserMap[fd].id;
      if ended then |todo| <= 1 && View() == ActAll(ids, me, before, todo)
      else todo != [] && todo[1..] == rest && View() == Act(ids, me, before, todo[0])
    }

    /** A command whose first operator is `<i`. */
    method ExecuteFromUser(users: OnlineUsers.UserManager, fd: nat, commands: seq<ServerParser.Command>, i: nat)
      returns (ended: bool)
      requires Ready(users, fd) && ProperOperators(commands) && i < |commands| && !IsBuiltin(commands[i].name)
      requires commands[i].operators != [] && HasNumber(commands[i].operators[0], '<') && Old(View())
      modifies pipeManager, shared
      ensures Ready(users, fd)
      ensures Did(users, fd, ActionsFrom(commands, i), ActionsFrom(commands, i + 1), ended, old(View()))
      ensures ActionsFrom(commands, i) == [] || !IsExit(ActionsFrom(commands, i)[0])
    {
      hide Act, Take, Fork, SendTo, Old, OldInput, OnlineUsers.UserManager.Valid, NPShell.View;
      ghost var ids, me, start := users.idUserMap.Keys, users.fdUserMap[fd].id, View();
      var c := commands[i];
      var second := if |c.operators| > 1 then c.operators[1] else "";
      ghost var todo := ActionsFrom(commands, i);
      ActFork(ids, me, start, todo[0]);
      ActOne(ids, me, start, todo);
      TakeUserPipe(users, fd, Number(c.operators[0]));
      TakeOld(ids, me, start, Number(c.operators[0]));
      OldInputs(View(), true);
      if HasNumber(second, '>') {
        ExecuteToUser(users, fd, c.name, c.args, true, Number(second));
        return true;
      }
      if second == ">" && i + 1 >= |commands| {
        return true;
      }
      ExecuteWithOutput(users, fd, c.name, c.args, true, second, if second == ">" then commands[i + 1].name else "");
      return false;
    }

    /** A command whose first operator is not `<i`. */
    method ExecuteOther(users: OnlineUsers.UserManager, fd: nat, commands: seq<ServerParser.Command>, i: nat)
      returns (ended: bool)
      requires Ready(users, fd) && ProperOperators(commands) && i < |commands| && !IsBuiltin(commands[i].name)
      requires (commands[i].operators == [] || !HasNumber(commands[i].operators[0], '<')) && Old(View())
      modifies pipeManager, shared
      ensures Ready(users, fd)
      ensures Did(users, fd, ActionsFrom(commands, i), ActionsFrom(commands, i + 1), ended, old(View()))
      ensures ActionsFrom(commands, i) == [] || !IsExit(ActionsFrom(commands, i)[0])
    {
      hide Act, Take, Fork, SendTo, Old, OldInput, OnlineUsers.UserManager.Valid, NPShell.View;
      ghost var ids, me, start := users.idUserMap.Keys, users.fdUserMap[fd].id, View();
      var c := commands[i];
      var first := if |c.operators| > 0 then c.operators[0] else "";
      var second := if |c.operators| > 1 then c.operators[1] else "";
      ghost var todo := ActionsFrom(commands, i);
      if todo != [] { ActFork(ids, me, start, todo[0]); }
      ActOne(ids, me, start, todo);
      OldInputs(start, false);
      if first == ">" {
        if i + 1 < |commands| {
          ExecuteWithOutput(users, fd, c.name, c.args, false, first, commands[i + 1].name);
        }
        return true;
      }
      if HasNumber(first, '>') {
        if HasNumber(second, '<') {
          TakeUserPipe(users, fd, Number(second));
          TakeOld(ids, me, start, Number(second));
          OldInputs(View(), true);
          ExecuteToUser(users, fd, c.name, c.args, true, Number(first));
        } else {
          ExecuteToUser(users, fd, c.name, c.args, false, Number(first));
        }
        return true;
      }
      ExecuteWithOutput(users, fd, c.name, c.args, false, first, "");
      return false;
    }

    /** One command of a line. */
    method ExecuteCommand(users: OnlineUsers.UserManager, fd: nat, commands: seq<ServerParser.Command>, i: nat)
      returns (ended: bool)
      requires Ready(users, fd) && ProperOperators(commands) && i < |commands| && Old(View())
      modifies this`exitFlag, pipeManager, shared, users`nameUserMap, users.users`name
      ensures Ready(users, fd)
      ensures Did(users, fd, ActionsFrom(commands, i), ActionsFrom(commands, i + 1), ended, old(View()))
      ensures var todo := ActionsFrom(commands, i); exitFlag == (old(exitFlag) || (todo != [] && IsExit(todo[0])))
      ensures var todo := ActionsFrom(commands, i);
              users.Names() == if todo == [] then old(users.Names())
                               else NamesBy(old(users.Names()), users.fdUserMap[fd].id, todo[0])
    {
      hide Act, ActAll, Take, Fork, SendTo, Old, OutputOf, OnlineUsers.UserManager.Valid, NPShell.View;
      hide NamesAfter, OnlineUsers.UserManager.Names;
      FirstAction(commands, i);
      ended := false;
      var c := commands[i];
      if IsBuiltin(c.name) {
        ExecuteBuiltin(users, fd, c.name, c.args);
      } else if c.operators != [] && HasNumber(c.operators[0], '<') {
        ended := ExecuteFromUser(users, fd, commands, i);
      } else {
        ended := ExecuteOther(users, fd, commands, i);
      }
    }

    /** The loop over the commands of one line. */
    method Execute(users: OnlineUsers.UserManager, fd: nat, commands: seq<ServerParser.Command>)
      requires Ready(users, fd) && ProperOperators(commands) && Old(View())
      modifies this`exitFlag, pipeManager, shared, users`nameUserMap, users.users`name
      ensures Ready(users, fd)
      ensures users.Names() == NamesByAll(old(users.Names()), users.fdUserMap[fd].id, ActionsFrom(commands, 0))
      ensures View() == ActAll(users.idUserMap.Keys, users.fdUserMap[fd].id, old(View()), ActionsFrom(commands, 0))
      ensures exitFlag == (old(exitFlag) || Exits(ActionsFrom(commands, 0)))
    {
      hide Act, Old, ActionsFrom, OnlineUsers.UserManager.Valid, NPShell.View, NamesBy, OnlineUsers.UserManager.Names;
      ghost var ids, me := users.idUserMap.Keys, users.fdUserMap[fd].id;
      var i := 0;
      while i < |commands|
        invariant i <= |commands|
        invariant Ready(users, fd) && Old(View())
        invariant ActAll(ids, me, View(), ActionsFrom(commands, i)) == ActAll(ids, me, old(View()), ActionsFrom(commands, 0))
        invariant (exitFlag || Exits(ActionsFrom(commands, i))) == (old(exitFlag) || Exits(ActionsFrom(commands, 0)))
        invariant NamesByAll(users.Names(), me, ActionsFrom(commands, i))
               == NamesByAll(old(users.Names()), me, ActionsFrom(commands, 0))
      {
        ghost var todo := ActionsFrom(commands, i);
        if todo != [] { ActOld(ids, me, View(), todo[0]); }
        var ended := ExecuteCommand(users, fd, commands, i);
        if ended {
          assert todo == [] || todo[1..] == [];
          return;
        }
        i := i + 1;
      }
      NothingAfter(commands);
    }
  }

  /** What a command does to the names. */
  function NamesBy(names: map<nat, string>, me: nat, a: Action): map<nat, string> {
    if a.Own? then NamesAfter(names, Ran(me, a.name, a.args)) else names
  }

  function NamesByAll(names: map<nat, string>, me: nat, actions: seq<Action>): map<nat, string>
    decreases |actions|
  {
    if actions == [] then names else NamesByAll(NamesBy(names, me, actions[0]), me, actions[1..])
  }

  lemma FirstAction(commands: seq<ServerParser.Command>, i: nat)
    requires ProperOperators(commands) && i < |commands|
    ensures var todo, c := ActionsFrom(commands, i), commands[i];
            if IsBuiltin(c.name) then todo != [] && todo[0] == Own(c.name, c.args) else todo != [] ==> !todo[0].Own?
  {
  }

  lemma EventName(names: map<nat, string>, h: seq<Event>, e: Event)
    requires names == NamesOf(h) && !e.Entered? && !e.Left? && !e.Ran?
    ensures names == NamesOf(h + [e])
  {
    NamedAfter(h, e);
  }

  lemma TakeNames(users: set<nat>, me: nat, l: Local, from: nat)
    ensures NamesOf(Take(users, me, l, from).pool.history) == NamesOf(l.pool.history)
  {
    hide NamesOf;
    EventName(NamesOf(l.pool.history), l.pool.history, Take(users, me, l, from).pool.history[|l.pool.history|]);
  }

  lemma ForkNames(me: nat, l: Local, name: string, args: seq<string>, fromUser: bool, out: Output)
    ensures NamesOf(Fork(me, l, name, args, fromUser, out).pool.history) == NamesOf(l.pool.history)
  {
    hide NamesOf, UserPipes.NewSession, Input, Feed;
    var h := Fork(me, l, name, args, fromUser, out).pool.history;
    EventName(NamesOf(l.pool.history), l.pool.history, h[|l.pool.history|]);
  }

  lemma SendNames(users: set<nat>, me: nat, l: Local, name: string, args: seq<string>, fromUser: bool, to: nat)
    ensures NamesOf(SendTo(users, me, l, name, args, fromUser, to).pool.history) == NamesOf(l.pool.history)
  {
    hide NamesOf, UserPipes.NewSession, Input, Feed, CanOpen;
    var h, h1 := l.pool.history, Open(users, me, l.pool, to).history;
    EventName(NamesOf(h), h, h1[|h|]);
    EventName(NamesOf(h), h1, SendTo(users, me, l, name, args, fromUser, to).pool.history[|h1|]);
  }

  lemma ActNames(users: set<nat>, me: nat, l: Local, a: Action)
    ensures NamesOf(Act(users, me, l, a).pool.history) == NamesBy(NamesOf(l.pool.history), me, a)
  {
    hide NamesOf, NamesAfter, UserPipes.NewSession, Take, Fork, SendTo;
    match a {
      case Own(name, args) => NamedAfter(l.pool.history, Ran(me, name, args));
      case Plain(name, args, out) => ForkNames(me, l, name, args, false, out);
      case TakeOnly(from) => TakeNames(users, me, l, from);
      case Receive(name, args, from, out) =>
        TakeNames(users, me, l, from);
        ForkNames(me, Take(users, me, l, from), name, args, true, out);
      case Send(name, args, to) => SendNames(users, me, l, name, args, false, to);
      case SendReceive(name, args, from, to) =>
        TakeNames(users, me, l, from);
        SendNames(users, me, Take(users, me, l, from), name, args, true, to);
    }
  }

  lemma {:induction false} LineNames(users: set<nat>, me: nat, l: Local, actions: seq<Action>)
    ensures NamesOf(ActAll(users, me, l, actions).pool.history) == NamesByAll(NamesOf(l.pool.history), me, actions)
    decreases |actions|
  {
    hide NamesOf, Act, NamesBy;
    if actions != [] {
      ActNames(users, me, l, actions[0]);
      LineNames(users, me, Act(users, me, l, actions[0]), actions[1..]);
    }
  }

  lemma NothingAfter(commands: seq<ServerParser.Command>)
    requires ProperOperators(commands)
    ensures ActionsFrom(commands, |commands|) == []
  {
  }

  /** A line, in terms of the client's slots. */
  method ExecuteOn(shell: NPShell, users: OnlineUsers.UserManager, fd: nat, commands: seq<ServerParser.Command>,
                   ghost slots: Shell)
    requires shell.pipeManager.shared == shell.shared && shell.pipeManager.Holds(slots)
    requires users.Valid() && fd in users.fdUserMap && ProperOperators(commands)
    requires Old(Local(slots, shell.shared.AsPool())) && users.Names() == NamesOf(shell.shared.history)
    modifies shell, shell.pipeManager, shell.shared, users`nameUserMap, users.users`name
    ensures users.Valid() && users.Names() == NamesOf(shell.shared.history)
    ensures users.Ids() == old(users.Ids()) && fd in users.Ids()
    ensures
      var before := Local(slots, old(shell.shared.AsPool()));
      var after := ActAll(users.Ids().Values, users.Ids()[fd], before, ActionsFrom(commands, 0));
      shell.pipeManager.Holds(after.shell) && shell.shared.AsPool() == after.pool
    ensures shell.exitFlag == (old(shell.exitFlag) || Exits(ActionsFrom(commands, 0)))
  {
    users.IdsValues();
    LineNames(users.idUserMap.Keys, users.fdUserMap[fd].id, Local(slots, shell.shared.AsPool()), ActionsFrom(commands, 0));
    hide OnlineUsers.UserManager.Valid, ActionsFrom, ActAll, Exits, NamesOf, NamesByAll, OnlineUsers.UserManager.Names;
    shell.Execute(users, fd, commands);
  }

  lemma HoldsMeaning(manager: PipeManager, slots: Shell)
    requires manager.Holds(slots)
    ensures manager.Idle() && manager.Slots() == slots
  {
  }

  lemma ActOne(ids: set<nat>, me: nat, l: Local, todo: seq<Action>)
    ensures |todo| <= 1 ==> ActAll(ids, me, l, todo) == if todo == [] then l else Act(ids, me, l, todo[0])
  {
    assert |todo| == 1 ==> todo[1..] == [];
  }

  lemma ActFork(ids: set<nat>, me: nat, l: Local, a: Action)
    ensures Act(ids, me, l, a) == match a
      case Own(name, args) => Act(ids, me, l, a)
      case Plain(name, args, out) => Fork(me, l, name, args, false, out)
      case Receive(name, args, from, out) => Fork(me, Take(ids, me, l, from), name, args, true, out)
      case TakeOnly(from) => Take(ids, me, l, from)
      case Send(name, args, to) => SendTo(ids, me, l, name, args, false, to)
      case SendReceive(name, args, from, to) => SendTo(ids, me, Take(ids, me, l, from), name, args, true, to)
  {
  }

  // ---------- the server ----------

  /** What `select` reports: a new connection, or a line from a client. */
  datatype Arrival = Accepted(fd: nat, ipAddr: string) | Received(fd: nat, text: string)

  class SingleProcServer {
    const userManager: OnlineUsers.UserManager
    const shared: Shared
    var npshellMap: map<nat, NPShell>
    ghost var state: Server
    ghost var shells: set<NPShell>
    ghost var managers: set<PipeManager>

    /** The registry knows the same users as the state, under the names that the history gives them. */
    ghost predicate UsersFit(ids: map<nat, nat>, h: seq<Event>)
      reads userManager, userManager.users
    {
      userManager.Valid() && userManager.Ids() == ids && userManager.Names() == NamesOf(h)
    }

    /** Every client has a shell of its own, between two lines. */
    ghost predicate Owned()
      reads this`npshellMap, this`shells, this`managers, managers
    {
      forall fd | fd in npshellMap :: Owns(npshellMap[fd], fd) && npshellMap[fd].pipeManager.Idle()
    }

    ghost predicate Owns(sh: NPShell, fd: nat)
      reads this`shells, this`managers
    {
      && sh in shells && sh.shared == shared
      && sh.pipeManager in managers && sh.pipeManager.shared == shared && sh.pipeManager.owner == fd
    }

    ghost predicate ShellsFit(slots: map<nat, Shell>)
      reads this`npshellMap, this`shells, this`managers, managers
    {
      && Owned() && npshellMap.Keys == slots.Keys
      && forall fd | fd in npshellMap :: npshellMap[fd].pipeManager.Slots() == slots[fd]
    }

    ghost predicate Fits()
      reads this, userManager, userManager.users, shared, managers
    {
      && npshellMap.Keys == state.ids.Keys
      && UsersFit(state.ids, state.pool.history) && ShellsFit(state.shells) && shared.AsPool() == state.pool && Sound(state)
    }

    /** Only the clients given here have run `exit`. */
    ghost predicate StayingBut(leaving: set<nat>)
      reads this`npshellMap, this`shells, this`managers, shells
    {
      forall fd | fd in npshellMap :: Owns(npshellMap[fd], fd) && (npshellMap[fd].exitFlag ==> fd in leaving)
    }

    ghost predicate Valid()
      reads this, userManager, userManager.users, shared, shells, managers
    {
      Fits() && StayingBut({})
    }

    constructor ()
      ensures Valid() && state == EMPTY_SERVER && shells == {} && managers == {} && userManager.users == {}
      ensures fresh(userManager) && fresh(shared)
    {
      userManager := new OnlineUsers.UserManager();
      shared := new Shared();
      npshellMap := map[];
      shells, managers := {}, {};
      state := EMPTY_SERVER;
      EmptySound();
    }

    method AddUser(fd: nat, ipAddr: string) returns (ghost id: nat)
      requires UsersFit(state.ids, shared.history) && fd !in state.ids
      modifies userManager
      ensures id == RegistryText.LowestFree(state.ids.Values)
      ensures UsersFit(state.ids[fd := id], shared.history + [Entered(id)])
      ensures fresh(userManager.users - old(userManager.users))
    {
      userManager.IdsValues();
      hide OnlineUsers.UserManager.Valid, RegistryText.LowestFree, NamesOf;
      var user := userManager.AddUser(fd, ipAddr);
      id := user.id;
      NamedAfter(shared.history, Entered(id));
    }

    /** The registry part of `newClient`. */
    method EnterUser(fd: nat, ipAddr: string)
      requires Sound(state) && UsersFit(state.ids, state.pool.history) && shared.AsPool() == state.pool && fd !in state.ids
      modifies this`state, userManager, shared`history
      ensures Sound(state) && UsersFit(state.ids, state.pool.history) && shared.AsPool() == state.pool
      ensures fresh(userManager.users - old(userManager.users))
      ensures state == Step(old(state), Connect(fd)) && state.ids.Keys == old(state).ids.Keys + {fd}
      ensures state.shells == old(state).shells[fd := UserPipes.NewSession(BEFORE_FIRST_SESSION)]
    {
      hide Sound, Step, SingleProcServer.UsersFit, RegistryText.LowestFree, UserPipes.NewSession;
      EnterShape(state, fd);
      ghost var id := AddUser(fd, ipAddr);
      shared.Note(Entered(id));
      state := Step(state, Connect(fd));
    }

    method RemoveUser(fd: nat)
      requires UsersFit(state.ids, state.pool.history) && fd in state.ids
      modifies userManager
      ensures UsersFit(state.ids - {fd}, state.pool.history + [Left(state.ids[fd])])
      ensures userManager.users <= old(userManager.users)
    {
      hide OnlineUsers.UserManager.Valid, NamesOf;
      NamedAfter(state.pool.history, Left(state.ids[fd]));
      userManager.RemoveUserByFd(fd);
    }

    method AddShell(fd: nat) returns (shell: NPShell)
      requires ShellsFit(state.shells) && StayingBut({}) && fd !in npshellMap
      modifies this`npshellMap, this`shells, this`managers
      ensures StayingBut({})
      ensures ShellsFit(state.shells[fd := UserPipes.NewSession(BEFORE_FIRST_SESSION)])
      ensures npshellMap == old(npshellMap)[fd := shell] && shells == old(shells) + {shell}
      ensures managers == old(managers) + {shell.pipeManager} && fresh(shell) && fresh(shell.pipeManager)
    {
      hide UserPipes.NewSession, PipeManager.Holds;
      shell := new NPShell(shared, fd);
      HoldsMeaning(shell.pipeManager, UserPipes.NewSession(BEFORE_FIRST_SESSION));
      hide PipeManager.Idle, PipeManager.Slots;
      npshellMap := npshellMap[fd := shell];
      shells, managers := shells + {shell}, managers + {shell.pipeManager};
    }

    method RemoveShell(fd: nat)
      requires ShellsFit(state.shells) && StayingBut({fd})
      modifies this`npshellMap
      ensures ShellsFit(state.shells - {fd}) && StayingBut({}) && npshellMap == old(npshellMap) - {fd}
    {
      npshellMap := npshellMap - {fd};
    }

    /** The operating system gives a new connection a socket that is not in use. */
    method NewClient(fd: nat, ipAddr: string)
      requires Valid() && fd !in npshellMap
      modifies this, userManager, shared
      ensures Valid() && state == Step(old(state), Connect(fd))
      ensures fresh(shells - old(shells)) && fresh(managers - old(managers))
      ensures fresh(userManager.users - old(userManager.users))
    {
      hide Sound, Step, SingleProcServer.UsersFit, SingleProcServer.ShellsFit, SingleProcServer.StayingBut;
      hide UserPipes.NewSession;
      var shell := AddShell(fd);
      EnterUser(fd, ipAddr);
    }

    /** The pipes of the user are closed before its id is free again. The shell is already gone. */
    method CloseClient(fd: nat)
      requires Sound(state) && UsersFit(state.ids, state.pool.history) && shared.AsPool() == state.pool && fd in state.ids
      modifies this`state, userManager, shared
      ensures Sound(state) && UsersFit(state.ids, state.pool.history) && shared.AsPool() == state.pool
      ensures userManager.users <= old(userManager.users)
      ensures state == Leave(old(state), fd) && state.ids.Keys == old(state).ids.Keys - {fd}
      ensures state.shells == old(state).shells - {fd}
    {
      hide Sound, Leave, OnlineUsers.UserManager.Valid;
      LeaveShape(state, fd);
      ghost var id := state.ids[fd];
      var user := userManager.fdUserMap[fd];
      assert user.id == id;
      hide SingleProcServer.UsersFit;
      shared.CloseUserPipe(user.id);
      shared.Note(Left(id));
      RemoveUser(fd);
      state := Leave(state, fd);
    }

    lemma UserKnown(fd: nat, h: seq<Event>)
      requires UsersFit(state.ids, h) && fd in state.ids
      ensures userManager.Valid() && fd in userManager.fdUserMap
    {
      hide OnlineUsers.UserManager.Valid;
    }

    method RunOn(shell: NPShell, fd: nat, commands: seq<ServerParser.Command>, ghost slots: Shell)
      requires UsersFit(state.ids, shared.history) && fd in state.ids
      requires shell.shared == shared && shell.pipeManager.shared == shared && shell.pipeManager.Holds(slots)
      requires ProperOperators(commands) && Old(Local(slots, shared.AsPool()))
      modifies shared, shell, shell.pipeManager, userManager`nameUserMap, userManager.users`name
      ensures UsersFit(state.ids, shared.history)
      ensures var before := Local(slots, old(shared.AsPool()));
              var after := ActAll(state.ids.Values, state.ids[fd], before, ActionsFrom(commands, 0));
              shell.pipeManager.Holds(after.shell) && shared.AsPool() == after.pool
      ensures shell.exitFlag == (old(shell.exitFlag) || Exits(ActionsFrom(commands, 0)))
    {
      hide OnlineUsers.UserManager.Valid, ActionsFrom, ActAll, Exits, NamesOf, PipeManager.Holds, Old;
      hide OnlineUsers.UserManager.Names, OnlineUsers.UserManager.Ids;
      UserKnown(fd, shared.history);
      ExecuteOn(shell, userManager, fd, commands, slots);
    }

    method RunShell(fd: nat, commands: seq<ServerParser.Command>)
      requires UsersFit(state.ids, shared.history) && fd in state.ids && ShellsFit(state.shells) && fd in state.shells
      requires shared.AsPool() == state.pool && StayingBut({}) && Old(LocalOf(state, fd))
      requires fd in npshellMap && ProperOperators(commands)
      modifies shared, shells, managers, userManager`nameUserMap, userManager.users`name
      ensures UsersFit(state.ids, shared.history)
      ensures var after := ActAll(state.ids.Values, state.ids[fd], LocalOf(state, fd), ActionsFrom(commands, 0));
              ShellsFit(state.shells[fd := after.shell]) && shared.AsPool() == after.pool
      ensures npshellMap[fd].exitFlag == Exits(ActionsFrom(commands, 0))
      ensures StayingBut(if npshellMap[fd].exitFlag then {fd} else {})
    {
      hide ActionsFrom, ActAll, Exits, Old, SingleProcServer.UsersFit;
      hide PipeManager.Holds, PipeManager.Idle, PipeManager.Slots;
      ShellHere(fd);
      var shell := npshellMap[fd];
      ghost var after := ActAll(state.ids.Values, state.ids[fd], LocalOf(state, fd), ActionsFrom(commands, 0)).shell;
      RunOn(shell, fd, commands, state.shells[fd]);
      HoldsMeaning(shell.pipeManager, after);
    }

    lemma ShellHere(fd: nat)
      requires ShellsFit(state.shells) && fd in npshellMap
      ensures fd in state.shells && Owns(npshellMap[fd], fd) && npshellMap[fd].pipeManager.Holds(state.shells[fd])
      ensures forall f | f in npshellMap && f != fd :: npshellMap[f].pipeManager != npshellMap[fd].pipeManager
    {
    }

    method ExecuteLine(fd: nat, commands: seq<ServerParser.Command>)
      requires Valid() && fd in npshellMap && ProperOperators(commands)
      modifies this`state, shared, shells, managers, userManager`nameUserMap, userManager.users`name
      ensures Fits() && StayingBut(if npshellMap[fd].exitFlag then {fd} else {})
      ensures fd in old(state).ids && fd in old(state).shells
      ensures state == UserPipes.Execute(old(state), fd, ActionsFrom(commands, 0))
      ensures npshellMap[fd].exitFlag == Exits(ActionsFrom(commands, 0))
    {
      hide Sound, StaysGone, ActionsFrom, ActAll, Exits;
      hide SingleProcServer.UsersFit, SingleProcServer.ShellsFit, SingleProcServer.StayingBut;
      SoundShells(state);
      ghost var actions := ActionsFrom(commands, 0);
      ExecuteKeeps(state, fd, actions);
      SoundOld(state, fd);
      RunShell(fd, commands);
      state := UserPipes.Execute(state, fd, actions);
    }

    method Depart(fd: nat)
      requires Fits() && StayingBut({fd}) && fd in npshellMap
      modifies this`npshellMap, this`state, userManager, shared
      ensures Valid() && fd in old(state).ids && state == Leave(old(state), fd)
      ensures userManager.users <= old(userManager.users)
    {
      hide Sound, Leave, SingleProcServer.UsersFit, SingleProcServer.ShellsFit, SingleProcServer.StayingBut;
      RemoveShell(fd);
      CloseClient(fd);
    }

    lemma InPlace(fd: nat)
      requires Valid() && fd in npshellMap
      ensures fd in state.ids && fd in state.shells
    {
      SoundShells(state);
    }

    /** A line of a client, and its departure when the line ran `exit`. */
    method HandleLine(fd: nat, text: string)
      requires Valid() && fd in npshellMap
      modifies this, userManager, shared, shells, managers, userManager.users`name
      ensures Valid()
      ensures state == Step(old(state), RequestOf(Received(fd, text)))
      ensures shells == old(shells) && managers == old(managers) && userManager.users <= old(userManager.users)
    {
      hide Step, Leave, ActionsFrom, UserPipes.Execute, Exits;
      hide SingleProcServer.Fits, SingleProcServer.StayingBut;
      InPlace(fd);
      ParsedOperators(text);
      LineShape(state, fd, ActionsFrom(ServerParser.ParseLine(text), 0));
      var commands := ServerParser.Parse(text);
      ExecuteLine(fd, commands);
      if npshellMap[fd].exitFlag {
        Depart(fd);
      }
    }

    /** The server on whatever its clients do, in any order. Only open sockets are reported as readable. */
    method Serve(inputs: seq<Arrival>)
      requires Valid() && state == EMPTY_SERVER && shells == {} && managers == {} && userManager.users == {}
      modifies this, userManager, shared
      ensures Valid() && state == UserPipes.Run(EMPTY_SERVER, RequestsOf(inputs))
      ensures Legal(shared.history) && shared.userPipeMap == Waiting(shared.history)
      ensures Unmixed(shared.history)
      ensures userManager.Names() == NamesOf(shared.history)
      ensures forall i, j | i in userManager.idUserMap && j in userManager.idUserMap
                            && userManager.idUserMap[i].name == userManager.idUserMap[j].name != "" :: i == j
    {
      hide Sound, SingleProcServer.UsersFit, UserPipes.Step;
      RunIsLegal(RequestsOf(inputs));
      UserPipeWriters.RunIsUnmixed(RequestsOf(inputs));
      hide Legal, Waiting, Online, Unmixed;
      assert inputs[0..] == inputs;
      var i := 0;
      while i < |inputs|
        invariant i <= |inputs|
        invariant Valid()
        invariant fresh(shells) && fresh(managers) && fresh(userManager.users)
        invariant UserPipes.Run(state, RequestsOf(inputs[i..])) == UserPipes.Run(EMPTY_SERVER, RequestsOf(inputs))
      {
        assert inputs[i..][0] == inputs[i] && inputs[i..][1..] == inputs[i + 1..];
        HandleArrival(inputs[i]);
        i := i + 1;
      }
      assert inputs[i..] == [];
      UniqueNames();
    }

    lemma UniqueNames()
      requires Valid()
      ensures userManager.Names() == NamesOf(shared.history)
      ensures forall i, j | i in userManager.idUserMap && j in userManager.idUserMap
                            && userManager.idUserMap[i].name == userManager.idUserMap[j].name != "" :: i == j
    {
      hide Sound, SingleProcServer.ShellsFit, SingleProcServer.StayingBut, OnlineUsers.UserManager.Valid, NamesOf;
      NamesDiffer(shared.history);
      forall i, j | i in userManager.idUserMap && j in userManager.idUserMap
                    && userManager.idUserMap[i].name == userManager.idUserMap[j].name != "" ensures i == j {
        assert userManager.Names()[i] == userManager.Names()[j];
      }
    }

    method HandleArrival(input: Arrival)
      requires Valid()
      modifies this, userManager, shared, shells, managers, userManager.users`name
      ensures Valid() && state == Step(old(state), RequestOf(input))
      ensures fresh(shells - old(shells)) && fresh(managers - old(managers))
      ensures fresh(userManager.users - old(userManager.users))
    {
      SoundShells(state);
      hide Sound, ActionsFrom, UserPipes.Execute, UserPipes.Leave, Exits;
      hide SingleProcServer.UsersFit, SingleProcServer.ShellsFit, SingleProcServer.StayingBut;
      match input {
        case Accepted(fd, ipAddr) =>
          if fd !in npshellMap { NewClient(fd, ipAddr); }
        case Received(fd, text) =>
          if fd in npshellMap { HandleLine(fd, text); }
      }
    }
  }

  function RequestOf(input: Arrival): Request {
    match input
    case Accepted(fd, _) => Connect(fd)
    case Received(fd, text) =>
      ParsedOperators(text);
      Line(fd, ActionsFrom(ServerParser.ParseLine(text), 0))
  }

  function RequestsOf(inputs: seq<Arrival>): seq<Request> {
    if inputs == [] then [] else [RequestOf(inputs[0])] + RequestsOf(inputs[1..])
  }

  lemma EnterShape(s: Server, fd: nat)
    requires Sound(s) && fd !in s.ids
    ensures var s', id := Step(s, Connect(fd)), RegistryText.LowestFree(s.ids.Values);
            && Sound(s') && s'.ids == s.ids[fd := id] && s'.pool == Note(s.pool, Entered(id))
            && s'.shells == s.shells[fd := UserPipes.NewSession(BEFORE_FIRST_SESSION)]
  {
    EnterKeeps(s, fd);
  }

  lemma LeaveShape(s: Server, fd: nat)
    requires Sound(s) && fd in s.ids
    ensures var s', id := Leave(s, fd), s.ids[fd];
            && Sound(s') && s'.ids == s.ids - {fd} && s'.shells == s.shells - {fd}
            && s'.pool == Note(CloseUser(s.pool, id), Left(id))
  {
    LeaveKeeps(s, fd);
  }

  lemma LineShape(s: Server, fd: nat, actions: seq<Action>)
    requires fd in s.ids && fd in s.shells
    ensures Step(s, Line(fd, actions))
         == if Exits(actions) then Leave(UserPipes.Execute(s, fd, actions), fd) else UserPipes.Execute(s, fd, actions)
  {
  }

  // ---------- a parsed line has proper operators ----------

  ghost predicate ProperState(st: ServerParser.State) {
    ProperOperators(st.done) && forall j | 0 <= j < |st.operators| :: ServerParser.IsOperator(st.operators[j])
  }

  lemma {:induction false} LoopOperators(rest: string, st: ServerParser.State)
    requires ProperState(st)
    ensures ProperOperators(ServerParser.Loop(rest, st))
    decreases |rest|
  {
    hide ServerParser.IsOperator;
    var t := SkipSpace(rest);
    if t != "" {
      var token, after := Word(t), AfterWord(t);
      var st' := ServerParser.Take(st, token);
      assert ProperState(st');
      if !ServerParser.IsOperator(token) && st.command == "" && ServerParser.IsRawCommand(token) {
        var raw := ServerParser.RawArgs(token, after);
        LoopOperators(raw.1, st'.(args := st'.args + raw.0));
      } else {
        LoopOperators(after, st');
      }
    }
  }

  lemma ParsedOperators(line: string)
    ensures ProperOperators(ServerParser.ParseLine(line))
  {
    LoopOperators(line, ServerParser.START);
  }
}
