/** The shells of the single-process server with their shared user pipes: the specification of `PipeManager`
    and `NPShell::execute` for all clients at once, and the proof that every run makes a legal history. */
module UserPipes {
  import opened Text
  import opened UserPipeHistory
  import PipeGraph
  import PlainParser
  import RegistryText
  import ServerParser

  type Output = PipeGraph.Output

  /** One client's slots: the pipe from the previous command, the mailbox due in this session, the user pipe
      that was taken, and the mailboxes of later sessions. */
  datatype Shell = Shell(session: nat, link: Stream, due: Stream, taken: Stream, table: map<nat, nat>)

  /** What all clients share; `open` are the pipes whose ends the server has not closed. */
  datatype Pool = Pool(waiting: map<Key, nat>, issued: nat, open: set<nat>, history: seq<Event>)

  datatype Local = Local(shell: Shell, pool: Pool)

  const BEFORE_FIRST_SESSION := Shell(0, Terminal, Terminal, Terminal, map[])

  function NewSession(sh: Shell): Shell {
    var t := sh.session + 1;
    var table := sh.table - {sh.session};
    Shell(t, Terminal, if t in table then Pipe(table[t]) else Terminal, Terminal, table - {t})
  }

  function EndSession(l: Local): Local {
    l.(shell := NewSession(l.shell))
  }

  function Note(pool: Pool, e: Event): Pool {
    pool.(history := pool.history + [e])
  }

  function NewPipe(pool: Pool): Pool {
    pool.(issued := pool.issued + 1, open := pool.open + {pool.issued})
  }

  /** The server closes its ends of what a command reads. */
  function CloseInput(pool: Pool, input: Stream): Pool {
    if input.Pipe? then pool.(open := pool.open - {input.id}) else pool
  }

  /** `<i`: nothing happens to the slot when there is no user i. */
  function Take(users: set<nat>, me: nat, l: Local, from: nat): Local {
    var key := (from, me);
    if from !in users then l.(pool := Note(l.pool, NoUser(me, from)))
    else if key !in l.pool.waiting then Local(l.shell.(taken := Terminal), Note(l.pool, Missing(key)))
    else
      var p := l.pool.waiting[key];
      Local(l.shell.(taken := Pipe(p)), Note(l.pool.(waiting := l.pool.waiting - {key}), Loaded(p, key)))
  }

  predicate CanOpen(users: set<nat>, me: nat, pool: Pool, to: nat) {
    to in users && (me, to) !in pool.waiting
  }

  /** `>j`. */
  function Open(users: set<nat>, me: nat, pool: Pool, to: nat): Pool {
    var key := (me, to);
    if to !in users then Note(pool, NoUser(me, to))
    else if key in pool.waiting then Note(pool, Refused(key))
    else Note(NewPipe(pool).(waiting := pool.waiting[key := pool.issued]), Created(pool.issued, key))
  }

  function Input(sh: Shell, fromUser: bool): Stream {
    if fromUser then (if sh.taken == Terminal then Null else sh.taken)
    else if sh.due != Terminal then sh.due
    else sh.link
  }

  /** A command that reads from a user takes the place of the link, but leaves the due mailbox where it is. */
  function Feed(sh: Shell, fromUser: bool): Shell {
    if fromUser then sh.(link := Terminal, taken := Terminal) else sh.(link := Terminal, due := Terminal)
  }

  function Start(me: nat, l: Local, name: string, args: seq<string>, fromUser: bool, output: Stream, err: Stream): Local {
    var input := Input(l.shell, fromUser);
    Local(Feed(l.shell, fromUser), Note(CloseInput(l.pool, input), Forked(me, name, args, input, output, err)))
  }

  function OpenLink(l: Local): Local {
    Local(l.shell.(link := Pipe(l.pool.issued)), NewPipe(l.pool))
  }

  function Reserve(l: Local, t: nat): (r: Local)
    ensures t in r.shell.table
  {
    if t in l.shell.table then l
    else Local(l.shell.(table := l.shell.table[t := l.pool.issued]), NewPipe(l.pool))
  }

  function Fork(me: nat, l: Local, name: string, args: seq<string>, fromUser: bool, out: Output): Local {
    match out
    case ToNext => OpenLink(Start(me, l, name, args, fromUser, Pipe(l.pool.issued), Terminal))
    case ToFile(file) => EndSession(Start(me, l, name, args, fromUser, File(file), Terminal))
    case ToConsole => EndSession(Start(me, l, name, args, fromUser, Terminal, Terminal))
    case ToSession(ahead, withErr) =>
      var r := Reserve(l, l.shell.session + ahead);
      var mailbox := Pipe(r.shell.table[l.shell.session + ahead]);
      EndSession(Start(me, r, name, args, fromUser, mailbox, if withErr then mailbox else Terminal))
  }

  function SendTo(users: set<nat>, me: nat, l: Local, name: string, args: seq<string>, fromUser: bool, to: nat): Local {
    var output := if CanOpen(users, me, l.pool, to) then Pipe(l.pool.issued) else Null;
    EndSession(Start(me, l.(pool := Open(users, me, l.pool, to)), name, args, fromUser, output, Terminal))
  }

  /** What one command of a line makes the shell do. `TakeOnly` is `<i >` without a file name: the pipe is
      taken and then the line is given up. */
  datatype Action =
    | Own(name: string, args: seq<string>)
    | Plain(name: string, args: seq<string>, out: Output)
    | Receive(name: string, args: seq<string>, from: nat, out: Output)
    | TakeOnly(from: nat)
    | Send(name: string, args: seq<string>, to: nat)
    | SendReceive(name: string, args: seq<string>, from: nat, to: nat)

  function Act(users: set<nat>, me: nat, l: Local, a: Action): Local {
    match a
    case Own(name, args) => EndSession(l.(pool := Note(l.pool, Ran(me, name, args))))
    case Plain(name, args, out) => Fork(me, l, name, args, false, out)
    case Receive(name, args, from, out) => Fork(me, Take(users, me, l, from), name, args, true, out)
    case TakeOnly(from) => Take(users, me, l, from)
    case Send(name, args, to) => SendTo(users, me, l, name, args, false, to)
    case SendReceive(name, args, from, to) => SendTo(users, me, Take(users, me, l, from), name, args, true, to)
  }

  function ActAll(users: set<nat>, me: nat, l: Local, actions: seq<Action>): Local
    decreases |actions|
  {
    if actions == [] then l else ActAll(users, me, Act(users, me, l, actions[0]), actions[1..])
  }

  // ---------- from parsed commands to actions ----------

  predicate IsBuiltin(name: string) {
    name in ["exit", "printenv", "setenv", "who", "yell", "name", "tell"]
  }

  function Number(op: string): (n: nat)
    requires ServerParser.IsNumbered(op)
    ensures n >= 1
  {
    PlainParser.PositiveValue(op[1..]);
    Value(op[1..])
  }

  ghost predicate ProperOperators(cs: seq<ServerParser.Command>) {
    forall i, j | 0 <= i < |cs| && 0 <= j < |cs[i].operators| :: ServerParser.IsOperator(cs[i].operators[j])
  }

  /** The operator is the character followed by a number. */
  predicate HasNumber(op: string, c: char) {
    |op| >= 2 && op[0] == c
  }

  /** Where the output goes that an operator other than `<N` and `>N` asks for. */
  function OutputOf(op: string): Output
    requires op == "" || ServerParser.IsOperator(op)
  {
    if op == "|" then PipeGraph.ToNext
    else if HasNumber(op, '|') || HasNumber(op, '!') then PipeGraph.ToSession(Number(op), op[0] == '!')
    else PipeGraph.ToConsole
  }

  /** The actions of a line from its i-th command on. */
  function ActionsFrom(cs: seq<ServerParser.Command>, i: nat): seq<Action>
    requires ProperOperators(cs) && i <= |cs|
    decreases |cs| - i
  {
    if i == |cs| then []
    else
      var c := cs[i];
      var first := if |c.operators| > 0 then c.operators[0] else "";
      var second := if |c.operators| > 1 then c.operators[1] else "";
      if IsBuiltin(c.name) then [Own(c.name, c.args)] + ActionsFrom(cs, i + 1)
      else if first == ">" then
        if i + 1 < |cs| then [Plain(c.name, c.args, PipeGraph.ToFile(cs[i + 1].name))] else []
      else if HasNumber(first, '>') then
        if HasNumber(second, '<') then [SendReceive(c.name, c.args, Number(second), Number(first))]
        else [Send(c.name, c.args, Number(first))]
      else if HasNumber(first, '<') then
        if HasNumber(second, '>') then [SendReceive(c.name, c.args, Number(first), Number(second))]
        else if second == ">" then
          if i + 1 < |cs| then
            [Receive(c.name, c.args, Number(first), PipeGraph.ToFile(cs[i + 1].name))] + ActionsFrom(cs, i + 1)
          else [TakeOnly(Number(first))]
        else [Receive(c.name, c.args, Number(first), OutputOf(second))] + ActionsFrom(cs, i + 1)
      else [Plain(c.name, c.args, OutputOf(first))] + ActionsFrom(cs, i + 1)
  }

  predicate IsExit(action: Action) {
    action.Own? && action.name == "exit"
  }

  predicate Exits(actions: seq<Action>) {
    actions != [] && (IsExit(actions[0]) || Exits(actions[1..]))
  }

  // ---------- the server ----------

  /** The user id behind each socket, each client's shell, and the shared pipes. */
  datatype Server = Server(ids: map<nat, nat>, shells: map<nat, Shell>, pool: Pool)

  const EMPTY_SERVER := Server(map[], map[], Pool(map[], 0, {}, []))

  function Put(s: Server, fd: nat, l: Local): Server {
    Server(s.ids, s.shells[fd := l.shell], l.pool)
  }

  function LocalOf(s: Server, fd: nat): Local
    requires fd in s.shells
  {
    Local(s.shells[fd], s.pool)
  }

  function Enter(s: Server, fd: nat): Server {
    var id := RegistryText.LowestFree(s.ids.Values);
    Server(s.ids[fd := id], s.shells[fd := NewSession(BEFORE_FIRST_SESSION)], Note(s.pool, Entered(id)))
  }

  /** All pipes of the user are closed and forgotten. */
  function CloseUser(pool: Pool, id: nat): Pool {
    pool.(waiting := WithoutUser(pool.waiting, id), open := pool.open - PipesOf(pool.waiting, id))
  }

  function Leave(s: Server, fd: nat): Server
    requires fd in s.ids
  {
    var id := s.ids[fd];
    Server(s.ids - {fd}, s.shells - {fd}, Note(CloseUser(s.pool, id), Left(id)))
  }

  function Execute(s: Server, fd: nat, actions: seq<Action>): Server
    requires fd in s.ids && fd in s.shells
  {
    Put(s, fd, ActAll(s.ids.Values, s.ids[fd], LocalOf(s, fd), actions))
  }

  datatype Request = Connect(fd: nat) | Line(fd: nat, actions: seq<Action>)

  /** A new connection has a socket of its own, and only connected sockets have lines to read. */
  function Step(s: Server, r: Request): Server {
    match r
    case Connect(fd) => if fd in s.ids then s else Enter(s, fd)
    case Line(fd, actions) =>
      if fd !in s.ids || fd !in s.shells then s
      else
        var s' := Execute(s, fd, actions);
        if Exits(actions) then Leave(s', fd) else s'
  }

  function Run(s: Server, requests: seq<Request>): Server
    decreases |requests|
  {
    if requests == [] then s else Run(Step(s, requests[0]), requests[1..])
  }

  // ---------- where the unread pipes are ----------

  datatype Place = Waits(key: Key) | Mailbox(fd: nat, session: nat) | Due(fd: nat) | Link(fd: nat) | Taken(fd: nat)

  function At(s: Server, place: Place): Stream {
    match place
    case Waits(key) => if key in s.pool.waiting then Pipe(s.pool.waiting[key]) else Terminal
    case Mailbox(fd, t) =>
      if fd in s.shells && t in s.shells[fd].table then Pipe(s.shells[fd].table[t]) else Terminal
    case Due(fd) => if fd in s.shells then s.shells[fd].due else Terminal
    case Link(fd) => if fd in s.shells then s.shells[fd].link else Terminal
    case Taken(fd) => if fd in s.shells then s.shells[fd].taken else Terminal
  }

  /** Every pipe is in at most one place. */
  ghost predicate Apart(s: Server) {
    && (forall a, b | At(s, a).Pipe? && At(s, a) == At(s, b) :: a == b)
    && (forall a | At(s, a).Pipe? :: At(s, a).id < s.pool.issued)
  }

  /** The pipe is in no place: nobody will read it any more. */
  ghost predicate Gone(s: Server, p: nat) {
    p < s.pool.issued && forall a :: At(s, a) != Pipe(p)
  }

  /** From s to s', at most one pipe was moved, from one place to the other, or opened; others may be lost. */
  ghost predicate Moved(s: Server, s': Server, src: Place, dest: Place) {
    && s.pool.issued <= s'.pool.issued
    && (forall a | a != dest && At(s', a).Pipe? :: At(s', a) == At(s, a))
    && (At(s', dest).Pipe? ==>
          || At(s', dest) == At(s, dest)
          || (At(s', dest) == At(s, src) && At(s', src) != At(s, src))
          || s.pool.issued <= At(s', dest).id < s'.pool.issued)
  }

  ghost predicate StaysGone(s: Server, s': Server) {
    forall p: nat | Gone(s, p) :: Gone(s', p) && (p in Read(s'.pool.history) ==> p in Read(s.pool.history))
  }

  lemma MovedKeeps(s: Server, s': Server, src: Place, dest: Place)
    requires Apart(s) && Moved(s, s', src, dest)
    ensures Apart(s')
    ensures forall p: nat | Gone(s, p) :: Gone(s', p)
  {
    hide At;
  }

  // ---------- the invariant ----------

  ghost predicate Tied(s: Server) {
    var h := s.pool.history;
    && s.pool.waiting == Waiting(h) && s.ids.Values == Online(h) && s.shells.Keys == s.ids.Keys
    && Injective(s.ids)
  }

  /** A user pipe is waiting or has been taken by the client in whose slot it is; other pipes are in the other
      places. */
  ghost predicate KindFits(s: Server, a: Place) {
    At(s, a).Pipe? ==>
      && (At(s, a).id in Sent(s.pool.history) <==> a.Waits? || a.Taken?)
      && (a.Taken? ==> a.fd in s.ids && At(s, a).id in Received(s.pool.history)
                       && Received(s.pool.history)[At(s, a).id].1 == s.ids[a.fd])
  }

  ghost predicate Kinds(s: Server) {
    && (forall a :: KindFits(s, a))
    && (forall p | p in Sent(s.pool.history) :: p < s.pool.issued)
    && (forall p | p in Read(s.pool.history) :: Gone(s, p))
    && (forall p | p in Abandoned(s.pool.history) :: Gone(s, p))
  }

  /** A pipe is closed exactly when a command has read it or its sender or receiver has left it behind. */
  ghost predicate OpenFits(s: Server) {
    forall p: nat :: p in s.pool.open <==>
      p < s.pool.issued && p !in Read(s.pool.history) && p !in Abandoned(s.pool.history)
  }

  ghost predicate Inv(s: Server) {
    Tied(s) && Apart(s) && Kinds(s) && OpenFits(s) && Legal(s.pool.history)
  }

  /** How the history and the users may change in one move. */
  ghost predicate Grows(s: Server, s': Server) {
    var h, h' := s.pool.history, s'.pool.history;
    && (forall p | p in Sent(h') :: p < s'.pool.issued && (p in Sent(h) || p >= s.pool.issued))
    && (forall p | p in Sent(h) :: p in Sent(h'))
    && (forall p | p in Received(h) :: p in Received(h') && Received(h')[p] == Received(h)[p])
    && (forall p | p in Read(h') :: p in Read(h) || (p < s.pool.issued && Gone(s', p) && !Gone(s, p)))
    && (forall p | p in Abandoned(h') :: p in Abandoned(h) || (p < s.pool.issued && Gone(s', p) && !Gone(s, p)))
    && Read(h) <= Read(h') && Abandoned(h) <= Abandoned(h')
    && (forall fd | fd in s'.shells && fd in s.ids :: fd in s'.ids && s'.ids[fd] == s.ids[fd])
  }

  /** What is read or left behind is closed, and what is opened is open. */
  ghost predicate OpenStep(s: Server, s': Server) {
    var h' := s'.pool.history;
    forall p: nat :: p in s'.pool.open <==>
      (p in s.pool.open && p !in Read(h') && p !in Abandoned(h')) || s.pool.issued <= p < s'.pool.issued
  }

  lemma OpenKept(s: Server, s': Server)
    requires Kinds(s) && OpenFits(s) && Grows(s, s') && OpenStep(s, s') && s.pool.issued <= s'.pool.issued
    ensures OpenFits(s')
  {
    hide KindFits, Read, Abandoned, Sent, Received;
  }

  lemma OneMove(s: Server, s': Server, src: Place, dest: Place)
    requires Apart(s) && Kinds(s) && OpenFits(s) && Moved(s, s', src, dest) && KindFits(s', dest)
    requires Grows(s, s') && OpenStep(s, s')
    ensures Apart(s') && Kinds(s') && OpenFits(s') && StaysGone(s, s')
  {
    OpenKept(s, s');
    hide OpenFits, OpenStep;
    MovedKeeps(s, s', src, dest);
    forall a ensures KindFits(s', a) {
      assert KindFits(s, a);
      if a != dest && At(s', a).Pipe? {
        assert At(s', a) == At(s, a) && At(s, a).id < s.pool.issued;
        assert a.Taken? ==> a.fd in s'.shells;
      }
    }
  }

  /** Nothing was noted, and perhaps one pipe opened. */
  lemma UnnotedGrows(s: Server, s': Server)
    requires Kinds(s) && OpenFits(s) && s'.pool.history == s.pool.history && s'.ids == s.ids && s'.shells.Keys == s.ids.Keys
    requires s'.pool == s.pool || (s'.pool.issued == s.pool.issued + 1 && s'.pool.open == s.pool.open + {s.pool.issued})
    ensures Grows(s, s') && OpenStep(s, s')
  {
    assert s.pool.issued !in Read(s.pool.history) && s.pool.issued !in Abandoned(s.pool.history);
    hide Sent, Received, Read, Abandoned, Gone, KindFits;
  }

  lemma Unnoted(s: Server, fd: nat, l: Local)
    requires Inv(s) && fd in s.ids
    requires l.pool.waiting == s.pool.waiting && l.pool.history == s.pool.history
    ensures Tied(Put(s, fd, l))
  {
  }

  lemma EndSessionMoves(s: Server, fd: nat)
    requires fd in s.shells
    ensures var s' := Put(s, fd, EndSession(LocalOf(s, fd)));
            var t := s.shells[fd].session + 1;
            Moved(s, s', Mailbox(fd, t), Due(fd))
            && (At(s', Due(fd)).Pipe? ==> At(s', Due(fd)) == At(s, Mailbox(fd, t)))
  {
  }

  lemma EndSessionKeeps(s: Server, fd: nat)
    requires Inv(s) && fd in s.ids
    ensures var s' := Put(s, fd, EndSession(LocalOf(s, fd))); Inv(s') && StaysGone(s, s')
  {
    var l := EndSession(LocalOf(s, fd));
    var s' := Put(s, fd, l);
    EndSessionMoves(s, fd);
    Unnoted(s, fd, l);
    hide Moved, At, NewSession, Tied, Apart, Legal, Injective;
    assert KindFits(s, Mailbox(fd, s.shells[fd].session + 1));
    UnnotedGrows(s, s');
    hide Grows, OpenStep;
    OneMove(s, s', Mailbox(fd, s.shells[fd].session + 1), Due(fd));
  }

  lemma OpenLinkMoves(s: Server, fd: nat)
    requires fd in s.shells
    ensures var s' := Put(s, fd, OpenLink(LocalOf(s, fd)));
            Moved(s, s', Link(fd), Link(fd)) && At(s', Link(fd)) == Pipe(s.pool.issued)
  {
  }

  lemma OpenLinkKeeps(s: Server, fd: nat)
    requires Inv(s) && fd in s.ids
    ensures var s' := Put(s, fd, OpenLink(LocalOf(s, fd))); Inv(s') && StaysGone(s, s')
  {
    hide Moved, At, Apart, Legal, Injective;
    var l := OpenLink(LocalOf(s, fd));
    var s' := Put(s, fd, l);
    OpenLinkMoves(s, fd);
    Unnoted(s, fd, l);
    UnnotedGrows(s, s');
    hide Grows, OpenStep;
    OneMove(s, s', Link(fd), Link(fd));
  }

  lemma ReserveMoves(s: Server, fd: nat, t: nat)
    requires fd in s.shells
    ensures var s' := Put(s, fd, Reserve(LocalOf(s, fd), t));
            && Moved(s, s', Mailbox(fd, t), Mailbox(fd, t))
            && At(s', Mailbox(fd, t)) == Pipe(s'.shells[fd].table[t])
            && (At(s', Mailbox(fd, t)) == At(s, Mailbox(fd, t)) || At(s', Mailbox(fd, t)).id == s.pool.issued)
  {
  }

  lemma ReserveKeeps(s: Server, fd: nat, t: nat)
    requires Inv(s) && fd in s.ids
    ensures var s' := Put(s, fd, Reserve(LocalOf(s, fd), t));
            Inv(s') && StaysGone(s, s') && s'.shells[fd].table[t] !in Sent(s'.pool.history)
  {
    var l := Reserve(LocalOf(s, fd), t);
    var s' := Put(s, fd, l);
    ReserveMoves(s, fd, t);
    Unnoted(s, fd, l);
    hide Moved, At, Tied, Apart, Legal, Injective;
    assert KindFits(s, Mailbox(fd, t));
    UnnotedGrows(s, s');
    hide Grows, OpenStep;
    OneMove(s, s', Mailbox(fd, t), Mailbox(fd, t));
    assert KindFits(s', Mailbox(fd, t));
  }

  /** One event more. */
  lemma Noted(s: Server, s': Server, e: Event)
    requires Inv(s) && MayFollow(s.pool.history, e) && s'.pool.history == s.pool.history + [e]
    requires s'.pool.waiting == WaitingAfter(s.pool.waiting, e) && s'.ids.Values == OnlineAfter(s.ids.Values, e)
    requires s'.shells.Keys == s'.ids.Keys
    requires Injective(s'.ids)
    ensures Tied(s') && Legal(s'.pool.history)
    ensures var h, h' := s.pool.history, s'.pool.history;
            && Sent(h') == (if e.Created? then Sent(h)[e.pipe := e.key] else Sent(h))
            && Received(h') == (if e.Loaded? then Received(h)[e.pipe := e.key] else Received(h))
            && Read(h') == (if e.Forked? && e.input.Pipe? then Read(h) + {e.input.id} else Read(h))
            && Abandoned(h') == Abandoned(h) + (if e.Left? then PipesOf(s.pool.waiting, e.id) else {})
  {
    After(s.pool.history, e);
    LegalAppend(s.pool.history, e);
  }

  /** What one event about pipes does to the ledgers of opened, taken, read and closed pipes. */
  lemma NotedGrows(s: Server, s': Server, e: Event)
    requires Kinds(s) && OpenFits(s) && !e.Left?
    requires var h, h' := s.pool.history, s'.pool.history;
             && Sent(h') == (if e.Created? then Sent(h)[e.pipe := e.key] else Sent(h))
             && Received(h') == (if e.Loaded? then Received(h)[e.pipe := e.key] else Received(h))
             && Read(h') == (if e.Forked? && e.input.Pipe? then Read(h) + {e.input.id} else Read(h))
             && Abandoned(h') == Abandoned(h)
             && (e.Loaded? ==> e.pipe !in Received(h))
    requires forall fd | fd in s'.shells && fd in s.ids :: fd in s'.ids && s'.ids[fd] == s.ids[fd]
    requires e.Created? ==> e.pipe == s.pool.issued
    requires s'.pool.issued == s.pool.issued + (if e.Created? then 1 else 0)
    requires e.Forked? && e.input.Pipe? ==> e.input.id < s.pool.issued && Gone(s', e.input.id) && !Gone(s, e.input.id)
    requires s'.pool.open == (if e.Created? then s.pool.open + {e.pipe}
                              else if e.Forked? && e.input.Pipe? then s.pool.open - {e.input.id}
                              else s.pool.open)
    ensures Grows(s, s') && OpenStep(s, s')
  {
    assert s.pool.issued !in Read(s.pool.history) && s.pool.issued !in Abandoned(s.pool.history);
    hide Sent, Received, Read, Abandoned, Gone, KindFits;
  }

  lemma TakeMoves(s: Server, fd: nat, from: nat)
    requires fd in s.ids && fd in s.shells
    ensures var me := s.ids[fd];
            var s' := Put(s, fd, Take(s.ids.Values, me, LocalOf(s, fd), from));
            Moved(s, s', Waits((from, me)), Taken(fd))
            && (CanTake(s, me, from) ==> At(s', Taken(fd)) == Pipe(s.pool.waiting[(from, me)]))
            && (At(s', Taken(fd)).Pipe? ==> At(s', Taken(fd)) == At(s, Taken(fd)) || CanTake(s, me, from))
  {
  }

  predicate CanTake(s: Server, me: nat, from: nat) {
    from in s.ids.Values && (from, me) in s.pool.waiting
  }

  lemma TakeKeeps(s: Server, fd: nat, from: nat)
    requires Inv(s) && fd in s.ids
    ensures var s' := Put(s, fd, Take(s.ids.Values, s.ids[fd], LocalOf(s, fd), from)); Inv(s') && StaysGone(s, s')
  {
    hide Waiting, Online, Sent, Received, Read, Abandoned, PipesOf, Legal, Apart, Gone, Moved, At, Injective;
    var me, h := s.ids[fd], s.pool.history;
    var key := (from, me);
    var l := Take(s.ids.Values, me, LocalOf(s, fd), from);
    var s' := Put(s, fd, l);
    var e := l.pool.history[|h|];
    assert me in s.ids.Values;
    if e.Loaded? {
      WaitingUsersOnline(h, key);
      assert e == Loaded(s.pool.waiting[key], key) && e.pipe in Sent(h) && e.pipe !in Received(h);
    }
    Noted(s, s', e);
    TakeMoves(s, fd, from);
    NotedGrows(s, s', e);
    hide Grows, OpenStep, Tied, OpenFits, MayFollow;
    assert KindFits(s, Taken(fd));
    assert KindFits(s', Taken(fd));
    OneMove(s, s', Waits(key), Taken(fd));
  }

  lemma OpenMoves(s: Server, fd: nat, to: nat)
    requires fd in s.ids && fd in s.shells
    ensures var me := s.ids[fd];
            var s' := Put(s, fd, LocalOf(s, fd).(pool := Open(s.ids.Values, me, s.pool, to)));
            Moved(s, s', Waits((me, to)), Waits((me, to)))
            && At(s', Waits((me, to))) == (if CanOpen(s.ids.Values, me, s.pool, to) then Pipe(s.pool.issued)
                                           else At(s, Waits((me, to))))
  {
  }

  lemma OpenKeeps(s: Server, fd: nat, to: nat)
    requires Inv(s) && fd in s.ids
    ensures var me := s.ids[fd];
            var s' := Put(s, fd, LocalOf(s, fd).(pool := Open(s.ids.Values, me, s.pool, to)));
            Inv(s') && StaysGone(s, s')
            && OutputFits(s'.pool.history, me, if CanOpen(s.ids.Values, me, s.pool, to) then Pipe(s.pool.issued) else Null)
  {
    hide Waiting, Online, Sent, Received, Read, Abandoned, PipesOf, Legal, Apart, Gone, Moved, At, Injective;
    var me, h := s.ids[fd], s.pool.history;
    var key := (me, to);
    var l := LocalOf(s, fd).(pool := Open(s.ids.Values, me, s.pool, to));
    var s' := Put(s, fd, l);
    var e := l.pool.history[|h|];
    assert me in s.ids.Values;
    NotReadYet(s);
    Noted(s, s', e);
    OpenMoves(s, fd, to);
    NotedGrows(s, s', e);
    hide Grows, OpenStep, Tied, OpenFits, MayFollow;
    assert KindFits(s, Waits(key));
    OneMove(s, s', Waits(key), Waits(key));
  }

  lemma NotReadYet(s: Server)
    requires Kinds(s)
    ensures s.pool.issued !in Read(s.pool.history) && s.pool.issued !in Sent(s.pool.history)
  {
  }

  /** The slot that the input is taken from. */
  function InputPlace(sh: Shell, fd: nat, fromUser: bool): Place {
    if fromUser then Taken(fd) else if sh.due != Terminal then Due(fd) else Link(fd)
  }

  lemma InputFitsHere(s: Server, fd: nat, fromUser: bool)
    requires Inv(s) && fd in s.ids
    ensures var input := Input(s.shells[fd], fromUser);
            && InputFits(s.pool.history, s.ids[fd], input)
            && (input.Pipe? ==> At(s, InputPlace(s.shells[fd], fd, fromUser)) == input)
  {
    assert KindFits(s, InputPlace(s.shells[fd], fd, fromUser));
  }

  lemma StartKeeps(s: Server, fd: nat, name: string, args: seq<string>, fromUser: bool, output: Stream, err: Stream)
    requires Inv(s) && fd in s.ids
    requires OutputFits(s.pool.history, s.ids[fd], output) && (err == Terminal || err == output)
    ensures var s' := Put(s, fd, Start(s.ids[fd], LocalOf(s, fd), name, args, fromUser, output, err));
            Inv(s') && StaysGone(s, s')
  {
    hide Waiting, Online, Sent, Received, Read, Abandoned, PipesOf, Legal, Apart, Gone, Moved, At, Injective;
    hide InputFits, OutputFits, Input, Feed;
    var me, h, sh := s.ids[fd], s.pool.history, s.shells[fd];
    var l := Start(me, LocalOf(s, fd), name, args, fromUser, output, err);
    var s' := Put(s, fd, l);
    var src, input := InputPlace(sh, fd, fromUser), Input(sh, fromUser);
    var e := Forked(me, name, args, input, output, err);
    InputFitsHere(s, fd, fromUser);
    assert me in s.ids.Values;
    Noted(s, s', e);
    InputGone(s, s', fd, fromUser);
    NotedGrows(s, s', e);
    hide Grows, OpenStep, Tied, OpenFits, MayFollow;
    assert KindFits(s', src);
    OneMove(s, s', src, src);
  }

  lemma InputGone(s: Server, s': Server, fd: nat, fromUser: bool)
    requires Apart(s) && fd in s.shells && s'.shells == s.shells[fd := Feed(s.shells[fd], fromUser)]
    requires s'.pool.waiting == s.pool.waiting && s'.pool.issued == s.pool.issued
    ensures var src, input := InputPlace(s.shells[fd], fd, fromUser), Input(s.shells[fd], fromUser);
            Moved(s, s', src, src) && !At(s', src).Pipe?
            && (input.Pipe? ==> input.id < s.pool.issued && Gone(s', input.id) && !Gone(s, input.id))
  {
    var src, input := InputPlace(s.shells[fd], fd, fromUser), Input(s.shells[fd], fromUser);
    if input.Pipe? {
      assert At(s, src) == input && At(s', src) != input;
      forall a ensures At(s', a) != input {
        if a != src { assert At(s', a).Pipe? ==> At(s', a) == At(s, a); }
      }
    }
  }

  lemma NewValue(ids: map<nat, nat>, fd: nat, id: nat)
    requires fd !in ids && id !in ids.Values
    requires Injective(ids)
    ensures var ids' := ids[fd := id];
            ids'.Values == ids.Values + {id} && Injective(ids')
  {
    var ids' := ids[fd := id];
    assert ids'[fd] == id;
    forall v | v in ids.Values ensures v in ids'.Values {
      var f :| f in ids && ids[f] == v;
      assert ids'[f] == v;
    }
    forall f | f in ids ensures ids[f] in ids.Values { }
  }

  lemma OldValue(ids: map<nat, nat>, fd: nat)
    requires fd in ids
    requires Injective(ids)
    ensures (ids - {fd}).Values == ids.Values - {ids[fd]} && Injective(ids - {fd})
  {
    var ids' := ids - {fd};
    forall v | v in ids.Values && v != ids[fd] ensures v in ids'.Values {
      var f :| f in ids && ids[f] == v;
      assert ids'[f] == v;
    }
  }

  lemma EnterMoves(s: Server, fd: nat)
    requires fd !in s.ids && s.shells.Keys == s.ids.Keys
    ensures Moved(s, Enter(s, fd), Link(fd), Link(fd)) && !At(Enter(s, fd), Link(fd)).Pipe?
  {
    hide RegistryText.LowestFree;
    NoMailboxes();
    hide NewSession;
    var s' := Enter(s, fd);
    assert s'.shells == s.shells[fd := Shell(1, Terminal, Terminal, Terminal, map[])];
    forall a | At(s', a).Pipe? ensures At(s', a) == At(s, a) { }
  }

  lemma NoMailboxes()
    ensures NewSession(BEFORE_FIRST_SESSION) == Shell(1, Terminal, Terminal, Terminal, map[])
  {
  }

  /** One event that is about no pipe, and perhaps the slots of one shell more or less. */
  lemma QuietMove(s: Server, s': Server, e: Event, a: Place)
    requires Inv(s) && MayFollow(s.pool.history, e) && !e.Created? && !e.Loaded? && !e.Forked?
    requires s'.pool.history == s.pool.history + [e] && s'.pool.issued == s.pool.issued
    requires s'.pool.waiting == WaitingAfter(s.pool.waiting, e) && s'.ids.Values == OnlineAfter(s.ids.Values, e)
    requires s'.shells.Keys == s'.ids.Keys && Injective(s'.ids)
    requires forall fd | fd in s'.ids && fd in s.ids :: s'.ids[fd] == s.ids[fd]
    requires Moved(s, s', a, a) && (At(s', a).Pipe? ==> At(s', a) == At(s, a) && a.Link?)
    requires s'.pool.open == s.pool.open - (if e.Left? then PipesOf(s.pool.waiting, e.id) else {})
    requires e.Left? ==> forall p | p in PipesOf(s.pool.waiting, e.id) :: p < s.pool.issued && Gone(s', p) && !Gone(s, p)
    ensures Inv(s') && StaysGone(s, s')
  {
    hide MayFollow, WaitingAfter, OnlineAfter, Waiting, Online, Sent, Received, Read, Abandoned, Legal;
    hide Tied, Injective, Apart, Gone, At, Moved, PipesOf;
    Noted(s, s', e);
    assert Grows(s, s');
    QuietOpen(s, s', e);
    hide Grows, OpenStep, OpenFits;
    assert KindFits(s, a);
    OneMove(s, s', a, a);
  }

  lemma QuietOpen(s: Server, s': Server, e: Event)
    requires OpenFits(s) && s'.pool.issued == s.pool.issued
    requires Read(s'.pool.history) == Read(s.pool.history)
    requires s'.pool.open == s.pool.open - (if e.Left? then PipesOf(s.pool.waiting, e.id) else {})
    requires Abandoned(s'.pool.history)
          == Abandoned(s.pool.history) + (if e.Left? then PipesOf(s.pool.waiting, e.id) else {})
    ensures OpenStep(s, s')
  {
    hide Read, Abandoned, PipesOf;
  }

  lemma OwnMoves(s: Server, fd: nat, e: Event)
    requires fd in s.shells
    ensures var s' := Put(s, fd, LocalOf(s, fd).(pool := Note(s.pool, e)));
            Moved(s, s', Link(fd), Link(fd)) && At(s', Link(fd)) == At(s, Link(fd))
  {
  }

  lemma OwnKeeps(s: Server, fd: nat, name: string, args: seq<string>)
    requires Inv(s) && fd in s.ids
    ensures var s' := Put(s, fd, LocalOf(s, fd).(pool := Note(s.pool, Ran(s.ids[fd], name, args))));
            Inv(s') && StaysGone(s, s')
  {
    hide Moved, At, Apart, Kinds, OpenFits, Legal, StaysGone, Injective, Waiting, Online;
    var e := Ran(s.ids[fd], name, args);
    OwnMoves(s, fd, e);
    assert s.ids[fd] in s.ids.Values;
    QuietMove(s, Put(s, fd, LocalOf(s, fd).(pool := Note(s.pool, e))), e, Link(fd));
  }

  lemma FreeId(s: Server) returns (id: nat)
    requires Tied(s)
    ensures id == RegistryText.LowestFree(s.ids.Values) && id !in s.ids.Values
    ensures MayFollow(s.pool.history, Entered(id))
  {
    id := RegistryText.LowestFree(s.ids.Values);
  }

  lemma EnterKeeps(s: Server, fd: nat)
    requires Inv(s) && fd !in s.ids
    ensures Inv(Enter(s, fd)) && StaysGone(s, Enter(s, fd))
  {
    hide Moved, At, MayFollow, NewSession, RegistryText.LowestFree;
    hide Apart, Kinds, OpenFits, Legal, StaysGone, Injective, Waiting, Online;
    EnterMoves(s, fd);
    var id := FreeId(s);
    NewValue(s.ids, fd, id);
    QuietMove(s, Enter(s, fd), Entered(id), Link(fd));
  }

  lemma LeaveMoves(s: Server, fd: nat)
    requires fd in s.ids
    ensures Moved(s, Leave(s, fd), Link(fd), Link(fd)) && !At(Leave(s, fd), Link(fd)).Pipe?
  {
  }

  /** A pipe the leaver had waiting was in one place only, and now is in none. */
  lemma LeaveGone(s: Server, fd: nat, p: nat)
    requires Apart(s) && fd in s.ids && p in PipesOf(s.pool.waiting, s.ids[fd])
    ensures p < s.pool.issued && Gone(Leave(s, fd), p) && !Gone(s, p)
  {
    var key :| key in s.pool.waiting && Names(key, s.ids[fd]) && s.pool.waiting[key] == p;
    assert At(s, Waits(key)) == Pipe(p);
    var s' := Leave(s, fd);
    forall a ensures At(s', a) != Pipe(p) { assert a == Waits(key) || (At(s', a).Pipe? ==> At(s', a) == At(s, a)); }
  }

  lemma LeaveKeeps(s: Server, fd: nat)
    requires Inv(s) && fd in s.ids
    ensures Inv(Leave(s, fd)) && StaysGone(s, Leave(s, fd))
  {
    LeaveMoves(s, fd);
    forall p | p in PipesOf(s.pool.waiting, s.ids[fd])
      ensures p < s.pool.issued && Gone(Leave(s, fd), p) && !Gone(s, p)
    {
      LeaveGone(s, fd, p);
    }
    OldValue(s.ids, fd);
    assert s.ids[fd] in s.ids.Values;
    assert MayFollow(s.pool.history, Left(s.ids[fd]));
    hide Moved, At, MayFollow, Apart, Kinds, OpenFits, Legal, StaysGone, Injective, Gone;
    QuietMove(s, Leave(s, fd), Left(s.ids[fd]), Link(fd));
  }

  // ---------- whole actions, lines and runs ----------

  /** The last event is not an answer to `>j` that still waits for its command. */
  ghost predicate Settled(h: seq<Event>) {
    h != [] ==> !h[|h| - 1].Created? && !h[|h| - 1].Refused?
  }

  ghost predicate Sound(s: Server) {
    Inv(s) && Settled(s.pool.history)
  }

  lemma Onward(s: Server, s': Server, s'': Server)
    requires StaysGone(s, s') && StaysGone(s', s'')
    ensures StaysGone(s, s'')
  {
    hide Gone, Read;
  }

  lemma PutAgain(s: Server, fd: nat, l: Local, l': Local)
    ensures Put(Put(s, fd, l), fd, l') == Put(s, fd, l') && LocalOf(Put(s, fd, l), fd) == l
  {
  }

  lemma StartFinal(s: Server, fd: nat, name: string, args: seq<string>, fromUser: bool, output: Stream, err: Stream)
    requires Inv(s) && fd in s.ids
    requires OutputFits(s.pool.history, s.ids[fd], output) && (err == Terminal || err == output)
    ensures var s' := Put(s, fd, EndSession(Start(s.ids[fd], LocalOf(s, fd), name, args, fromUser, output, err)));
            Sound(s') && StaysGone(s, s')
  {
    assert fd in s.shells;
    hide Tied, Apart, Kinds, Legal, StaysGone, OutputFits, NewSession;
    var l := Start(s.ids[fd], LocalOf(s, fd), name, args, fromUser, output, err);
    StartKeeps(s, fd, name, args, fromUser, output, err);
    PutAgain(s, fd, l, EndSession(l));
    EndSessionKeeps(Put(s, fd, l), fd);
    Onward(s, Put(s, fd, l), Put(s, fd, EndSession(l)));
  }

  lemma NotSent(s: Server, user: nat, output: Stream)
    requires Sound(s) && (output.Pipe? ==> output.id !in Sent(s.pool.history))
    ensures OutputFits(s.pool.history, user, output) && Inv(s)
  {
  }

  lemma NextUnused(s: Server)
    requires Inv(s)
    ensures s.shells.Keys == s.ids.Keys && s.pool.issued !in Sent(s.pool.history)
  {
  }

  lemma LinkForkKeeps(s: Server, fd: nat, name: string, args: seq<string>, fromUser: bool)
    requires Sound(s) && fd in s.ids
    ensures var s' := Put(s, fd, Fork(s.ids[fd], LocalOf(s, fd), name, args, fromUser, PipeGraph.ToNext));
            Sound(s') && StaysGone(s, s')
  {
    NextUnused(s);
    hide Inv, StaysGone, OutputFits, Input, Feed, Sent;
    var me, link := s.ids[fd], Pipe(s.pool.issued);
    NotSent(s, me, link);
    var l1 := Start(me, LocalOf(s, fd), name, args, fromUser, link, Terminal);
    StartKeeps(s, fd, name, args, fromUser, link, Terminal);
    PutAgain(s, fd, l1, OpenLink(l1));
    OpenLinkKeeps(Put(s, fd, l1), fd);
    Onward(s, Put(s, fd, l1), Put(s, fd, OpenLink(l1)));
  }

  lemma MailboxReserved(s: Server, fd: nat, t: nat)
    requires Sound(s) && fd in s.ids
    ensures var s1 := Put(s, fd, Reserve(LocalOf(s, fd), t));
            Inv(s1) && StaysGone(s, s1) && OutputFits(s1.pool.history, s.ids[fd], Pipe(s1.shells[fd].table[t]))
  {
    ReserveKeeps(s, fd, t);
    hide Inv, StaysGone, OutputFits, Sent;
    var s1 := Put(s, fd, Reserve(LocalOf(s, fd), t));
    NotSent(s1, s.ids[fd], Pipe(s1.shells[fd].table[t]));
  }

  lemma MailboxForkKeeps(s: Server, fd: nat, name: string, args: seq<string>, fromUser: bool,
                         ahead: PipeGraph.Pos, withErr: bool)
    requires Sound(s) && fd in s.ids
    ensures var s' := Put(s, fd, Fork(s.ids[fd], LocalOf(s, fd), name, args, fromUser, PipeGraph.ToSession(ahead, withErr)));
            Sound(s') && StaysGone(s, s')
  {
    hide Sound, Inv, StaysGone, OutputFits, NewSession, Start, Reserve;
    assert fd in s.shells by { SoundShells(s); }
    var me, t := s.ids[fd], s.shells[fd].session + ahead;
    var l1 := Reserve(LocalOf(s, fd), t);
    MailboxReserved(s, fd, t);
    var s1, mailbox := Put(s, fd, l1), Pipe(l1.shell.table[t]);
    var err := if withErr then mailbox else Terminal;
    StartFinal(s1, fd, name, args, fromUser, mailbox, err);
    var l2 := EndSession(Start(me, l1, name, args, fromUser, mailbox, err));
    PutAgain(s, fd, l1, l2);
    Onward(s, s1, Put(s, fd, l2));
  }

  lemma SoundShells(s: Server)
    requires Sound(s)
    ensures s.shells.Keys == s.ids.Keys
  {
  }

  lemma ForkKeeps(s: Server, fd: nat, name: string, args: seq<string>, fromUser: bool, out: Output)
    requires Sound(s) && fd in s.ids
    ensures var s' := Put(s, fd, Fork(s.ids[fd], LocalOf(s, fd), name, args, fromUser, out));
            Sound(s') && StaysGone(s, s')
  {
    NextUnused(s);
    hide Sound, Inv, StaysGone, OutputFits, NewSession, Start;
    match out
    case ToNext => LinkForkKeeps(s, fd, name, args, fromUser);
    case ToFile(file) =>
      NotSent(s, s.ids[fd], File(file));
      StartFinal(s, fd, name, args, fromUser, File(file), Terminal);
    case ToConsole =>
      NotSent(s, s.ids[fd], Terminal);
      StartFinal(s, fd, name, args, fromUser, Terminal, Terminal);
    case ToSession(ahead, withErr) => MailboxForkKeeps(s, fd, name, args, fromUser, ahead, withErr);
  }

  lemma TakeSettles(s: Server, fd: nat, from: nat)
    requires Sound(s) && fd in s.ids
    ensures var s' := Put(s, fd, Take(s.ids.Values, s.ids[fd], LocalOf(s, fd), from)); Sound(s') && StaysGone(s, s')
  {
    hide Inv, StaysGone;
    TakeKeeps(s, fd, from);
  }

  lemma SendToKeeps(s: Server, fd: nat, name: string, args: seq<string>, fromUser: bool, to: nat)
    requires Sound(s) && fd in s.ids
    ensures var s' := Put(s, fd, SendTo(s.ids.Values, s.ids[fd], LocalOf(s, fd), name, args, fromUser, to));
            Sound(s') && StaysGone(s, s')
  {
    assert fd in s.shells;
    hide Inv, StaysGone, OutputFits, NewSession, Input, Feed, Settled;
    var me, l := s.ids[fd], LocalOf(s, fd);
    var output := if CanOpen(s.ids.Values, me, s.pool, to) then Pipe(s.pool.issued) else Null;
    var l1 := l.(pool := Open(s.ids.Values, me, s.pool, to));
    OpenKeeps(s, fd, to);
    StartFinal(Put(s, fd, l1), fd, name, args, fromUser, output, Terminal);
    var l2 := EndSession(Start(me, l1, name, args, fromUser, output, Terminal));
    PutAgain(s, fd, l1, l2);
    Onward(s, Put(s, fd, l1), Put(s, fd, l2));
  }

  lemma ActKeeps(s: Server, fd: nat, a: Action)
    requires Sound(s) && fd in s.ids
    ensures var s' := Put(s, fd, Act(s.ids.Values, s.ids[fd], LocalOf(s, fd), a)); Sound(s') && StaysGone(s, s')
  {
    assert fd in s.shells;
    hide StaysGone, Take, Fork, SendTo, NewSession, Tied, Apart, Kinds, OpenFits, Legal;
    var users, me, l := s.ids.Values, s.ids[fd], LocalOf(s, fd);
    match a
    case Own(name, args) =>
      var l1 := l.(pool := Note(l.pool, Ran(me, name, args)));
      OwnKeeps(s, fd, name, args);
      PutAgain(s, fd, l1, EndSession(l1));
      EndSessionKeeps(Put(s, fd, l1), fd);
      Onward(s, Put(s, fd, l1), Put(s, fd, EndSession(l1)));
    case Plain(name, args, out) => ForkKeeps(s, fd, name, args, false, out);
    case Receive(name, args, from, out) =>
      var l1 := Take(users, me, l, from);
      TakeSettles(s, fd, from);
      ForkKeeps(Put(s, fd, l1), fd, name, args, true, out);
      PutAgain(s, fd, l1, Fork(me, l1, name, args, true, out));
      Onward(s, Put(s, fd, l1), Put(s, fd, Fork(me, l1, name, args, true, out)));
    case TakeOnly(from) => TakeSettles(s, fd, from);
    case Send(name, args, to) => SendToKeeps(s, fd, name, args, false, to);
    case SendReceive(name, args, from, to) =>
      var l1 := Take(users, me, l, from);
      TakeSettles(s, fd, from);
      SendToKeeps(Put(s, fd, l1), fd, name, args, true, to);
      PutAgain(s, fd, l1, SendTo(users, me, l1, name, args, true, to));
      Onward(s, Put(s, fd, l1), Put(s, fd, SendTo(users, me, l1, name, args, true, to)));
  }

  lemma {:induction false} ExecuteKeeps(s: Server, fd: nat, actions: seq<Action>)
    requires Sound(s) && fd in s.ids
    ensures Sound(Execute(s, fd, actions)) && StaysGone(s, Execute(s, fd, actions))
    ensures Execute(s, fd, actions).ids == s.ids
    decreases |actions|
  {
    hide StaysGone, Act, Apart, Kinds, Legal, Settled;
    var users, me, l := s.ids.Values, s.ids[fd], LocalOf(s, fd);
    if actions == [] {
      assert Put(s, fd, l) == s;
      Nothing(s);
    } else {
      var l1 := Act(users, me, l, actions[0]);
      ActKeeps(s, fd, actions[0]);
      ExecuteKeeps(Put(s, fd, l1), fd, actions[1..]);
      PutAgain(s, fd, l1, ActAll(users, me, l1, actions[1..]));
      Onward(s, Put(s, fd, l1), Execute(s, fd, actions));
    }
  }

  lemma Nothing(s: Server)
    ensures StaysGone(s, s)
  {
  }

  lemma StepKeeps(s: Server, r: Request)
    requires Sound(s)
    ensures Sound(Step(s, r)) && StaysGone(s, Step(s, r))
  {
    hide StaysGone, Apart, Kinds, Legal, Execute, Exits, RegistryText.LowestFree, NewSession, WithoutUser;
    Nothing(s);
    match r
    case Connect(fd) =>
      if fd !in s.ids { EnterKeeps(s, fd); }
    case Line(fd, actions) =>
      if fd in s.ids {
        var s1 := Execute(s, fd, actions);
        ExecuteKeeps(s, fd, actions);
        if Exits(actions) {
          LeaveKeeps(s1, fd);
          Onward(s, s1, Leave(s1, fd));
        }
      }
  }

  lemma {:induction false} RunKeeps(s: Server, requests: seq<Request>)
    requires Sound(s)
    ensures Sound(Run(s, requests)) && StaysGone(s, Run(s, requests))
    decreases |requests|
  {
    hide Sound, StaysGone, Step;
    if requests == [] {
      Nothing(s);
    } else {
      StepKeeps(s, requests[0]);
      RunKeeps(Step(s, requests[0]), requests[1..]);
      Onward(s, Step(s, requests[0]), Run(s, requests));
    }
  }

  lemma EmptySound()
    ensures Sound(EMPTY_SERVER)
  {
    assert EMPTY_SERVER.ids.Values == {};
  }

  // ---------- every run of the server ----------

  /** Every run of the server, whatever its clients do in whatever order, makes a legal history, and the
      table of user pipes is what the history says. */
  lemma RunIsLegal(requests: seq<Request>)
    ensures var s := Run(EMPTY_SERVER, requests);
            && Legal(s.pool.history)
            && s.pool.waiting == Waiting(s.pool.history)
            && s.ids.Values == Online(s.pool.history)
            && Sound(s)
  {
    EmptySound();
    RunKeeps(EMPTY_SERVER, requests);
  }

  /** Between lines, every waiting pipe is between two connected users, and it is the one that was opened for
      them and has not been taken or closed since. */
  lemma UserPipeTable(requests: seq<Request>, key: Key, pipe: nat)
    ensures var s := Run(EMPTY_SERVER, requests);
            && (key in s.pool.waiting ==> key.0 in s.ids.Values && key.1 in s.ids.Values)
            && (key in s.pool.waiting && s.pool.waiting[key] == pipe <==>
                  exists k: nat :: StillWaiting(s.pool.history, pipe, key, k))
  {
    RunIsLegal(requests);
    var s := Run(EMPTY_SERVER, requests);
    WaitingMeaning(s.pool.history, key, pipe);
    if key in s.pool.waiting {
      WaitingUsersOnline(s.pool.history, key);
    }
  }

  /** A client that connects, perhaps under the id of one that left, has no pipe waiting in either direction,
      so its own first `>j` is not refused. */
  lemma NewcomerHasNoPipe(requests: seq<Request>, fd: nat, key: Key)
    ensures var s := Run(EMPTY_SERVER, requests);
            fd !in s.ids && Names(key, Enter(s, fd).ids[fd]) ==> key !in Enter(s, fd).pool.waiting
  {
    UserPipeTable(requests, key, 0);
    var id := RegistryText.LowestFree(Run(EMPTY_SERVER, requests).ids.Values);
    hide Run;
  }

  /** In every reachable state the server has both ends of a pipe open until a command has read it or one of
      its two users has left while it waited, and never again after that. */
  lemma OpenPipes(requests: seq<Request>, p: nat)
    ensures var s := Run(EMPTY_SERVER, requests);
            p in s.pool.open <==> p < s.pool.issued && p !in Read(s.pool.history) && p !in Abandoned(s.pool.history)
  {
    EmptySound();
    RunKeeps(EMPTY_SERVER, requests);
  }

  /** Whatever the server closes, after a fork or when a user leaves, is open until then: nothing is closed
      twice. */
  lemma ClosesOpenPipes(s: Server, fd: nat, fromUser: bool)
    requires Sound(s) && fd in s.ids && fd in s.shells
    ensures Input(s.shells[fd], fromUser).Pipe? ==> Input(s.shells[fd], fromUser).id in s.pool.open
    ensures PipesOf(s.pool.waiting, s.ids[fd]) <= s.pool.open
  {
    InputFitsHere(s, fd, fromUser);
    assert Apart(s) && Kinds(s) && OpenFits(s);
    hide Read, Abandoned, Input;
    forall p | p in PipesOf(s.pool.waiting, s.ids[fd]) ensures p in s.pool.open { LeaveGone(s, fd, p); }
  }

  // ---------- a due mailbox behind `<i` ----------

  function Last(h: seq<Event>): Event
    requires h != []
  {
    h[|h| - 1]
  }

  lemma ForkEvent(me: nat, l: Local, name: string, args: seq<string>, fromUser: bool, out: Output)
    ensures var l' := Fork(me, l, name, args, fromUser, out);
            && |l'.pool.history| == |l.pool.history| + 1
            && var e := Last(l'.pool.history);
               e.Forked? && e.user == me && e.name == name && e.input == Input(l.shell, fromUser)
  {
    hide Feed, NewSession;
  }

  lemma ReceiveLink(users: set<nat>, me: nat, l: Local, name: string, args: seq<string>, from: nat)
    ensures var l' := Act(users, me, l, Receive(name, args, from, PipeGraph.ToNext));
            && l'.shell.link == Pipe(l.pool.issued) && l'.shell.due == l.shell.due
            && Last(l'.pool.history).Forked? && Last(l'.pool.history).output == Pipe(l.pool.issued)
  {
  }

  function WithoutLink(l: Local): Local {
    l.(shell := l.shell.(link := Terminal))
  }

  lemma SameWithoutLink(me: nat, l: Local, name: string, args: seq<string>, out: Output)
    requires l.shell.due != Terminal
    ensures Fork(me, l, name, args, false, out) == Fork(me, WithoutLink(l), name, args, false, out)
  {
  }

  lemma DropMoves(s: Server, fd: nat)
    requires fd in s.shells
    ensures var s' := Put(s, fd, WithoutLink(LocalOf(s, fd)));
            Moved(s, s', Link(fd), Link(fd)) && At(s', Link(fd)) == Terminal
  {
  }

  lemma DropKeeps(s: Server, fd: nat, p: nat)
    requires Sound(s) && fd in s.ids && At(s, Link(fd)) == Pipe(p)
    ensures var s' := Put(s, fd, WithoutLink(LocalOf(s, fd))); Sound(s') && Gone(s', p) && p !in Read(s'.pool.history)
  {
    var l := WithoutLink(LocalOf(s, fd));
    var s' := Put(s, fd, l);
    DropMoves(s, fd);
    Unnoted(s, fd, l);
    assert p !in Read(s.pool.history);
    hide At, Tied, Legal;
    forall a ensures At(s', a) != Pipe(p) {
      assert a == Link(fd) || (At(s', a).Pipe? ==> At(s', a) == At(s, a));
    }
    UnnotedGrows(s, s');
    hide Grows, OpenStep;
    OneMove(s, s', Link(fd), Link(fd));
  }

  /** A link behind a due mailbox is never read. */
  lemma LinkLost(s: Server, fd: nat, b: Action, p: nat, later: seq<Request>)
    requires Sound(s) && fd in s.ids && fd in s.shells
    requires s.shells[fd].link == Pipe(p) && s.shells[fd].due != Terminal && b.Plain?
    ensures var l2 := Act(s.ids.Values, s.ids[fd], LocalOf(s, fd), b);
            p !in Read(Run(Put(s, fd, l2), later).pool.history)
  {
    hide Sound, Gone, Fork, Read, Run;
    var users, me := s.ids.Values, s.ids[fd];
    var dropped := WithoutLink(LocalOf(s, fd));
    var s1 := Put(s, fd, dropped);
    assert At(s, Link(fd)) == Pipe(p);
    DropKeeps(s, fd, p);
    SameWithoutLink(me, LocalOf(s, fd), b.name, b.args, b.out);
    var l2 := Act(users, me, dropped, b);
    PutAgain(s, fd, dropped, l2);
    ActKeeps(s1, fd, b);
    RunKeeps(Put(s, fd, l2), later);
    Onward(s1, Put(s, fd, l2), Run(Put(s, fd, l2), later));
  }

  lemma DueIsOld(s: Server, fd: nat)
    requires Sound(s) && fd in s.shells
    ensures s.shells[fd].due != Pipe(s.pool.issued)
  {
    assert At(s, Due(fd)) == s.shells[fd].due;
  }

  /** In `a <i | b`, command b reads from a exactly when no numbered pipe was due in the session; when one
      was due, b reads that, and what a writes is read by no command of any client, now or later. */
  lemma DisplacedLink(s: Server, fd: nat, a: Action, b: Action, later: seq<Request>)
    requires Sound(s) && fd in s.ids && fd in s.shells
    requires a.Receive? && a.out.ToNext? && b.Plain?
    ensures var l := LocalOf(s, fd);
            var l1 := Act(s.ids.Values, s.ids[fd], l, a);
            var l2 := Act(s.ids.Values, s.ids[fd], l1, b);
            var first, second := Last(l1.pool.history), Last(l2.pool.history);
            && first.Forked? && second.Forked? && first.output.Pipe?
            && (second.input == first.output <==> l.shell.due == Terminal)
            && (l.shell.due != Terminal ==>
                  second.input == l.shell.due && first.output.id !in Read(Run(Put(s, fd, l2), later).pool.history))
  {
    hide Sound, Read, Run, Fork, Take;
    var users, me, l := s.ids.Values, s.ids[fd], LocalOf(s, fd);
    var l1 := Act(users, me, l, a);
    var s1 := Put(s, fd, l1);
    ReceiveLink(users, me, l, a.name, a.args, a.from);
    ForkEvent(me, l1, b.name, b.args, false, b.out);
    DueIsOld(s, fd);
    if l.shell.due != Terminal {
      ActKeeps(s, fd, a);
      LinkLost(s1, fd, b, s.pool.issued, later);
      PutAgain(s, fd, l1, Act(users, me, l1, b));
    }
  }

  // ---------- what `<i` reads ----------

  /** The command of `<i` reads the pipe that i sent, and if there is none or no user i, nothing: exactly
      unless nobody has the id i and the client still holds a pipe that it took before. */
  lemma ReceivedInput(users: set<nat>, me: nat, l: Local, a: Action)
    requires a.Receive? && !l.shell.taken.Null?
    ensures var e := Last(Act(users, me, l, a).pool.history);
            var key := (a.from, me);
            && e.Forked? && e.user == me && e.name == a.name
            && (e.input == (if a.from in users && key in l.pool.waiting then Pipe(l.pool.waiting[key]) else Null) <==>
                  a.from in users || l.shell.taken == Terminal)
  {
    ForkEvent(me, Take(users, me, l, a.from), a.name, a.args, true, a.out);
    hide Fork;
  }

  /** A client holds a taken pipe between two commands exactly when it gave up a line after `<i`, and has
      since then run nothing but commands in the middle of a pipeline. */
  lemma HeldPipe(users: set<nat>, me: nat, l: Local, a: Action)
    ensures Act(users, me, l, a).shell.taken != Terminal <==>
            match a
            case TakeOnly(from) => if from in users then (from, me) in l.pool.waiting else l.shell.taken != Terminal
            case Plain(_, _, ToNext) => l.shell.taken != Terminal
            case _ => false
  {
  }
}
