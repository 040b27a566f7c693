/** In every run of the single-process server, what different clients write is never mixed in one pipe: a link
    or a mailbox is written and read by the client it belongs to alone, and a user pipe is written by the one
    command it was opened for. */
module UserPipeWriters {
  import opened Text
  import opened UserPipeHistory
  import opened UserPipes
  import PipeGraph
  import RegistryText

  // ---------- the pipes of one client ----------

  /** Nobody else has written to the mailboxes of its later sessions. */
  ghost predicate OwnMailboxes(h: seq<Event>, table: map<nat, nat>, me: nat) {
    forall t | t in table && table[t] in Outputs(h) :: IsWriter(h, table[t], me)
  }

  ghost predicate AllWritten(h: seq<Event>, table: map<nat, nat>) {
    forall t | t in table :: table[t] in Outputs(h)
  }

  ghost predicate Below(table: map<nat, nat>, issued: nat) {
    forall t | t in table :: table[t] < issued
  }

  /** The client has written to the pipes in its slots, and what it has taken was sent. */
  ghost predicate OwnSlots(h: seq<Event>, sh: Shell, me: nat) {
    && (sh.link.Pipe? ==> IsWriter(h, sh.link.id, me))
    && (sh.due.Pipe? ==> IsWriter(h, sh.due.id, me))
    && (sh.taken.Pipe? ==> sh.taken.id in Sent(h))
  }

  /** No pipe is written to before it is opened, and what waits was sent. */
  ghost predicate Bounded(h: seq<Event>, pool: Pool) {
    && (forall p | p in Outputs(h) :: p < pool.issued)
    && (forall key | key in pool.waiting :: pool.waiting[key] in Sent(h))
  }

  /** As it is in the middle of a command, when a mailbox may be reserved and not yet written to. */
  ghost predicate Neat(l: Local, me: nat) {
    var h := l.pool.history;
    && Unmixed(h) && Bounded(h, l.pool) && OwnSlots(h, l.shell, me)
    && OwnMailboxes(h, l.shell.table, me) && Below(l.shell.table, l.pool.issued)
  }

  ghost predicate Tidy(l: Local, me: nat) {
    Neat(l, me) && AllWritten(l.pool.history, l.shell.table)
  }

  /** Nothing has changed about the writers of a pipe that is older than `base` and not in the table. */
  ghost predicate Spares(h: seq<Event>, h': seq<Event>, base: nat, table: map<nat, nat>) {
    && Sent(h).Keys <= Sent(h').Keys
    && forall p: nat | p < base && p !in table.Values ::
         && (p in Outputs(h') <==> p in Outputs(h))
         && (p in Writers(h) ==> p in Writers(h') && Writers(h')[p] == Writers(h)[p])
  }

  /** The entries of a later table are old ones or new pipes. */
  ghost predicate Stems(table: map<nat, nat>, table': map<nat, nat>, base: nat) {
    forall t | t in table' :: table'[t] in table.Values || table'[t] >= base
  }

  lemma SparesOn(h: seq<Event>, h1: seq<Event>, h2: seq<Event>, base: nat, base1: nat, table: map<nat, nat>,
                 table1: map<nat, nat>)
    requires Spares(h, h1, base, table) && Spares(h1, h2, base1, table1) && Stems(table, table1, base) && base <= base1
    ensures Spares(h, h2, base, table)
  {
    hide Outputs, Writers, Sent;
    forall p: nat | p < base && p !in table.Values ensures p !in table1.Values { }
  }

  lemma SparesSame(h: seq<Event>, base: nat, table: map<nat, nat>)
    ensures Spares(h, h, base, table)
  {
  }

  lemma StemsOn(table: map<nat, nat>, table1: map<nat, nat>, table2: map<nat, nat>, base: nat, base1: nat)
    requires Stems(table, table1, base) && Stems(table1, table2, base1) && base <= base1
    ensures Stems(table, table2, base)
  {
  }

  lemma StemsSame(table: map<nat, nat>, base: nat)
    ensures Stems(table, table, base)
  {
  }

  // ---------- one event ----------

  /** What a command writes to is one of its mailboxes, or a pipe opened since `base` that nobody has written
      to; and what it reads is its own or was sent. */
  ghost predicate Proper(h: seq<Event>, e: Event, base: nat, table: map<nat, nat>, me: nat) {
    match e
    case Created(p, _) => p !in Outputs(h)
    case Forked(user, _, _, input, output, _) =>
      && user == me
      && (output.Pipe? ==> output.id in table.Values || (base <= output.id && output.id !in Outputs(h)))
      && (input.Pipe? ==> input.id in Sent(h) || IsWriter(h, input.id, me))
    case Left(_) => false
    case _ => true
  }

  /** The ledgers of one user only grow. */
  ghost predicate Grown(h: seq<Event>, h': seq<Event>, me: nat) {
    && Outputs(h) <= Outputs(h') && Sent(h).Keys <= Sent(h').Keys
    && forall p: nat | IsWriter(h, p, me) :: IsWriter(h', p, me)
  }

  lemma OneEvent(h: seq<Event>, e: Event, base: nat, table: map<nat, nat>, me: nat)
    requires Unmixed(h) && OwnMailboxes(h, table, me) && Proper(h, e, base, table, me)
    ensures var h' := h + [e];
            && Unmixed(h') && OwnMailboxes(h', table, me) && Spares(h, h', base, table) && Grown(h, h', me)
            && Outputs(h') == (if e.Forked? && e.output.Pipe? then Outputs(h) + {e.output.id} else Outputs(h))
            && (e.Forked? && e.output.Pipe? ==> IsWriter(h', e.output.id, me))
            && (e.Created? ==> e.pipe in Sent(h'))
  {
    hide Outputs, Writers, Unmixed, Sent, Received, Read, Abandoned, Waiting, Online;
    WrittenAfter(h, e);
    After(h, e);
    UnmixedAppend(h, e);
  }

  // ---------- one command ----------

  /** What an action does to the pipes of its own client and of the others. */
  ghost predicate Behaves(l: Local, l': Local, me: nat) {
    && Tidy(l', me) && l.pool.issued <= l'.pool.issued
    && Spares(l.pool.history, l'.pool.history, l.pool.issued, l.shell.table)
    && Stems(l.shell.table, l'.shell.table, l.pool.issued)
  }

  lemma BehavesOn(l: Local, l1: Local, l2: Local, me: nat)
    requires Behaves(l, l1, me) && Behaves(l1, l2, me)
    ensures Behaves(l, l2, me)
  {
    hide Tidy, Spares, Stems;
    SparesOn(l.pool.history, l1.pool.history, l2.pool.history, l.pool.issued, l1.pool.issued, l.shell.table,
             l1.shell.table);
    StemsOn(l.shell.table, l1.shell.table, l2.shell.table, l.pool.issued, l1.pool.issued);
  }

  /** A new session hands over a mailbox that the client has written to. */
  lemma EndTidy(l: Local, me: nat, base: nat)
    requires Tidy(l, me)
    ensures Tidy(EndSession(l), me) && Stems(l.shell.table, EndSession(l).shell.table, base)
  {
    hide Unmixed, Bounded, Outputs, Sent, IsWriter;
  }

  /** The output is a pipe of the client's table, or one opened since `base` that nobody has written to. */
  ghost predicate MayGive(l: Local, output: Stream, base: nat) {
    output.Pipe? ==>
      && output.id < l.pool.issued
      && (output.id in l.shell.table.Values || (base <= output.id && output.id !in Outputs(l.pool.history)))
  }

  lemma StartNeat(me: nat, l: Local, name: string, args: seq<string>, fromUser: bool, output: Stream, err: Stream,
                  base: nat)
    requires Neat(l, me) && base <= l.pool.issued
    requires MayGive(l, output, base)
    ensures var l', h := Start(me, l, name, args, fromUser, output, err), l.pool.history;
            && Neat(l', me) && l'.pool.issued == l.pool.issued && l'.shell.table == l.shell.table
            && Spares(h, l'.pool.history, base, l.shell.table)
            && Outputs(l'.pool.history) == (if output.Pipe? then Outputs(h) + {output.id} else Outputs(h))
            && (output.Pipe? ==> IsWriter(l'.pool.history, output.id, me))
  {
    hide Unmixed, OwnMailboxes, Spares, Outputs, Sent, IsWriter;
    OneEvent(l.pool.history, Forked(me, name, args, Input(l.shell, fromUser), output, err), base, l.shell.table, me);
  }

  /** An event that is no command, and what it may do to the slot of `<i` and to what waits. */
  lemma NoteBehaves(me: nat, l: Local, l': Local, e: Event)
    requires Tidy(l, me) && l'.pool.history == l.pool.history + [e] && l.pool.issued <= l'.pool.issued
    requires l'.shell == l.shell.(taken := l'.shell.taken)
    requires !e.Forked? && !e.Left? && (e.Created? ==> e.pipe == l.pool.issued)
    requires l'.shell.taken.Pipe? ==> l'.shell.taken == l.shell.taken || l'.shell.taken.id in l.pool.waiting.Values
    requires forall key | key in l'.pool.waiting :: l'.pool.waiting[key] in l.pool.waiting.Values
                                                    || (e.Created? && e.pipe == l'.pool.waiting[key])
    ensures Behaves(l, l', me) && Outputs(l'.pool.history) == Outputs(l.pool.history)
  {
    hide Unmixed, OwnMailboxes, Spares, Outputs, Sent, IsWriter;
    OneEvent(l.pool.history, e, l.pool.issued, l.shell.table, me);
    StemsSame(l.shell.table, l.pool.issued);
    hide Stems;
  }

  lemma Opened(l: Local, me: nat)
    requires Tidy(l, me)
    ensures Tidy(l.(pool := NewPipe(l.pool)), me) && l.pool.issued !in Outputs(l.pool.history)
  {
    hide Unmixed, OwnMailboxes, Outputs, Sent, IsWriter;
  }

  /** The pipe to the next command is opened before the fork, and is in the link after it. */
  lemma LinkBehaves(me: nat, l: Local, name: string, args: seq<string>, fromUser: bool)
    requires Tidy(l, me)
    ensures Behaves(l, Fork(me, l, name, args, fromUser, PipeGraph.ToNext), me)
  {
    hide Unmixed, OwnMailboxes, Below, Outputs, Sent, IsWriter, Spares, Stems, Input;
    Opened(l, me);
    var l1, link := l.(pool := NewPipe(l.pool)), Pipe(l.pool.issued);
    StartNeat(me, l1, name, args, fromUser, link, Terminal, l.pool.issued);
    StemsSame(l.shell.table, l.pool.issued);
  }

  lemma LastNeat(me: nat, l: Local, name: string, args: seq<string>, fromUser: bool, output: Stream, err: Stream,
                 base: nat)
    requires Neat(l, me) && base <= l.pool.issued
    requires forall t | t in l.shell.table ::
               l.shell.table[t] in Outputs(l.pool.history) || (output.Pipe? && output.id == l.shell.table[t])
    requires MayGive(l, output, base)
    ensures var l' := EndSession(Start(me, l, name, args, fromUser, output, err));
            && Tidy(l', me) && l'.pool.issued == l.pool.issued
            && Spares(l.pool.history, l'.pool.history, base, l.shell.table) && Stems(l.shell.table, l'.shell.table, base)
  {
    hide Neat, Spares, Stems, NewSession, Start, Outputs;
    StartNeat(me, l, name, args, fromUser, output, err, base);
    var l1 := Start(me, l, name, args, fromUser, output, err);
    assert AllWritten(l1.pool.history, l1.shell.table);
    EndTidy(l1, me, base);
  }

  lemma ReserveNeat(me: nat, l: Local, t: nat)
    requires Tidy(l, me)
    ensures var r := Reserve(l, t);
            && Neat(r, me) && r.pool.history == l.pool.history && l.pool.issued <= r.pool.issued
            && r.shell.table[t] < r.pool.issued && Stems(l.shell.table, r.shell.table, l.pool.issued)
            && r.shell.table[t] in r.shell.table.Values
            && forall u | u in r.shell.table && u != t :: r.shell.table[u] in Outputs(l.pool.history)
  {
    hide Unmixed, Outputs, Writers, Sent;
  }

  lemma MailboxBehaves(me: nat, l: Local, name: string, args: seq<string>, fromUser: bool,
                       ahead: PipeGraph.Pos, withErr: bool)
    requires Tidy(l, me)
    ensures Behaves(l, Fork(me, l, name, args, fromUser, PipeGraph.ToSession(ahead, withErr)), me)
  {
    hide Tidy, Neat, Spares, Stems, NewSession, Start, Reserve, Outputs;
    var t, base := l.shell.session + ahead, l.pool.issued;
    var r := Reserve(l, t);
    ReserveNeat(me, l, t);
    var mailbox := Pipe(r.shell.table[t]);
    var err := if withErr then mailbox else Terminal;
    LastNeat(me, r, name, args, fromUser, mailbox, err, base);
    var l' := EndSession(Start(me, r, name, args, fromUser, mailbox, err));
    SparesSame(l.pool.history, base, l.shell.table);
    SparesOn(l.pool.history, l.pool.history, l'.pool.history, base, base, l.shell.table, r.shell.table);
    StemsOn(l.shell.table, r.shell.table, l'.shell.table, base, base);
  }

  lemma ForkBehaves(me: nat, l: Local, name: string, args: seq<string>, fromUser: bool, out: Output)
    requires Tidy(l, me)
    ensures Behaves(l, Fork(me, l, name, args, fromUser, out), me)
  {
    hide Neat, Spares, Stems, EndSession, Start, Reserve, Outputs;
    match out
    case ToNext => LinkBehaves(me, l, name, args, fromUser);
    case ToFile(file) => LastNeat(me, l, name, args, fromUser, File(file), Terminal, l.pool.issued);
    case ToConsole => LastNeat(me, l, name, args, fromUser, Terminal, Terminal, l.pool.issued);
    case ToSession(ahead, withErr) => MailboxBehaves(me, l, name, args, fromUser, ahead, withErr);
  }

  lemma TakeBehaves(users: set<nat>, me: nat, l: Local, from: nat)
    requires Tidy(l, me)
    ensures Behaves(l, Take(users, me, l, from), me)
  {
    hide Tidy, Behaves;
    var l' := Take(users, me, l, from);
    NoteBehaves(me, l, l', l'.pool.history[|l.pool.history|]);
  }

  lemma OpenBehaves(users: set<nat>, me: nat, l: Local, to: nat)
    requires Tidy(l, me)
    ensures var l' := l.(pool := Open(users, me, l.pool, to));
            && Behaves(l, l', me) && Outputs(l'.pool.history) == Outputs(l.pool.history)
            && (CanOpen(users, me, l.pool, to) ==>
                  l'.pool.issued == l.pool.issued + 1 && l.pool.issued !in Outputs(l.pool.history))
  {
    Opened(l, me);
    hide Tidy, Behaves;
    var l' := l.(pool := Open(users, me, l.pool, to));
    NoteBehaves(me, l, l', l'.pool.history[|l.pool.history|]);
  }

  lemma SendBehaves(users: set<nat>, me: nat, l: Local, name: string, args: seq<string>, fromUser: bool, to: nat)
    requires Tidy(l, me)
    ensures Behaves(l, SendTo(users, me, l, name, args, fromUser, to), me)
  {
    hide Neat, Spares, Stems, EndSession, Start, Open, CanOpen, Outputs;
    var l1 := l.(pool := Open(users, me, l.pool, to));
    var output := if CanOpen(users, me, l.pool, to) then Pipe(l.pool.issued) else Null;
    OpenBehaves(users, me, l, to);
    LastNeat(me, l1, name, args, fromUser, output, Terminal, l.pool.issued);
    var l2 := EndSession(Start(me, l1, name, args, fromUser, output, Terminal));
    SparesOn(l.pool.history, l1.pool.history, l2.pool.history, l.pool.issued, l.pool.issued, l.shell.table,
             l1.shell.table);
  }

  lemma EndBehaves(l: Local, l1: Local, me: nat)
    requires Behaves(l, l1, me)
    ensures Behaves(l, EndSession(l1), me)
  {
    hide Tidy, Spares, Stems, NewSession;
    EndTidy(l1, me, l.pool.issued);
    StemsOn(l.shell.table, l1.shell.table, EndSession(l1).shell.table, l.pool.issued, l.pool.issued);
  }

  /** A command of any kind writes to new pipes and to its own mailboxes, and reads its own pipes and those sent
      to it. */
  lemma ActBehaves(users: set<nat>, me: nat, l: Local, a: Action)
    requires Tidy(l, me)
    ensures Behaves(l, Act(users, me, l, a), me)
  {
    hide Take, Fork, SendTo, EndSession, Tidy, Spares, Stems;
    match a {
      case Own(name, args) =>
        var l1 := l.(pool := Note(l.pool, Ran(me, name, args)));
        NoteBehaves(me, l, l1, Ran(me, name, args));
        EndBehaves(l, l1, me);
      case Plain(name, args, out) => ForkBehaves(me, l, name, args, false, out);
      case Receive(name, args, from, out) =>
        var l1 := Take(users, me, l, from);
        TakeBehaves(users, me, l, from);
        ForkBehaves(me, l1, name, args, true, out);
        BehavesOn(l, l1, Fork(me, l1, name, args, true, out), me);
      case TakeOnly(from) => TakeBehaves(users, me, l, from);
      case Send(name, args, to) => SendBehaves(users, me, l, name, args, false, to);
      case SendReceive(name, args, from, to) =>
        var l1 := Take(users, me, l, from);
        TakeBehaves(users, me, l, from);
        SendBehaves(users, me, l1, name, args, true, to);
        BehavesOn(l, l1, SendTo(users, me, l1, name, args, true, to), me);
    }
  }

  lemma {:induction false} LineBehaves(users: set<nat>, me: nat, l: Local, actions: seq<Action>)
    requires Tidy(l, me)
    ensures Behaves(l, ActAll(users, me, l, actions), me)
    decreases |actions|
  {
    hide Tidy, Act, Spares, Stems;
    if actions == [] {
      SparesSame(l.pool.history, l.pool.issued, l.shell.table);
      StemsSame(l.shell.table, l.pool.issued);
    } else {
      var l1 := Act(users, me, l, actions[0]);
      ActBehaves(users, me, l, actions[0]);
      LineBehaves(users, me, l1, actions[1..]);
      BehavesOn(l, l1, ActAll(users, me, l1, actions[1..]), me);
    }
  }

  // ---------- the whole server ----------

  ghost predicate ClientTidy(h: seq<Event>, sh: Shell, me: nat) {
    OwnSlots(h, sh, me) && OwnMailboxes(h, sh.table, me) && AllWritten(h, sh.table)
  }

  ghost predicate AllTidy(s: Server) {
    && Unmixed(s.pool.history) && Bounded(s.pool.history, s.pool)
    && forall fd | fd in s.shells && fd in s.ids :: ClientTidy(s.pool.history, s.shells[fd], s.ids[fd])
  }

  lemma TidyHere(s: Server, fd: nat)
    requires Sound(s) && AllTidy(s) && fd in s.ids
    ensures fd in s.shells && Tidy(LocalOf(s, fd), s.ids[fd])
  {
    forall t | t in s.shells[fd].table ensures s.shells[fd].table[t] < s.pool.issued {
      assert At(s, Mailbox(fd, t)) == Pipe(s.shells[fd].table[t]);
    }
    assert ClientTidy(s.pool.history, s.shells[fd], s.ids[fd]);
    hide Unmixed, Bounded, OwnMailboxes, OwnSlots, AllWritten, At, Kinds, OpenFits, Legal;
  }

  /** A pipe in another client's place is an old one, and in none of this client's mailboxes. */
  lemma PlacesApart(s: Server, fd: nat, a: Place)
    requires Apart(s) && fd in s.shells && At(s, a).Pipe? && !(a.Mailbox? && a.fd == fd)
    ensures At(s, a).id < s.pool.issued && At(s, a).id !in s.shells[fd].table.Values
  {
    forall t | t in s.shells[fd].table ensures s.shells[fd].table[t] != At(s, a).id {
      assert At(s, Mailbox(fd, t)) == Pipe(s.shells[fd].table[t]);
    }
  }

  ghost predicate Beyond(p: nat, base: nat, table: map<nat, nat>) {
    p < base && p !in table.Values
  }

  lemma OtherClientApart(s: Server, fd: nat, other: nat)
    requires Apart(s) && fd in s.shells && other in s.shells && fd != other
    ensures var sh, base, table := s.shells[other], s.pool.issued, s.shells[fd].table;
            && (sh.link.Pipe? ==> Beyond(sh.link.id, base, table)) && (sh.due.Pipe? ==> Beyond(sh.due.id, base, table))
            && forall t | t in sh.table :: Beyond(sh.table[t], base, table)
  {
    hide Apart;
    if s.shells[other].link.Pipe? { PlacesApart(s, fd, Link(other)); }
    if s.shells[other].due.Pipe? { PlacesApart(s, fd, Due(other)); }
    forall t | t in s.shells[other].table ensures Beyond(s.shells[other].table[t], s.pool.issued, s.shells[fd].table) {
      PlacesApart(s, fd, Mailbox(other, t));
    }
  }

  lemma OthersKeep(h: seq<Event>, h': seq<Event>, base: nat, table: map<nat, nat>, sh: Shell, user: nat)
    requires Spares(h, h', base, table) && ClientTidy(h, sh, user)
    requires sh.link.Pipe? ==> Beyond(sh.link.id, base, table)
    requires sh.due.Pipe? ==> Beyond(sh.due.id, base, table)
    requires forall t | t in sh.table :: Beyond(sh.table[t], base, table)
    ensures ClientTidy(h', sh, user)
  {
    hide Outputs, Writers, Sent;
  }

  lemma ExecuteTidy(s: Server, fd: nat, actions: seq<Action>)
    requires Sound(s) && AllTidy(s) && fd in s.ids
    ensures fd in s.shells && AllTidy(Execute(s, fd, actions))
  {
    TidyHere(s, fd);
    var me, l := s.ids[fd], LocalOf(s, fd);
    LineBehaves(s.ids.Values, me, l, actions);
    var s' := Execute(s, fd, actions);
    assert Apart(s);
    hide Sound, Unmixed, Bounded, OwnMailboxes, OwnSlots, AllWritten, Spares, Stems, ActAll, Below, Apart;
    forall other | other in s'.shells && other in s'.ids
      ensures ClientTidy(s'.pool.history, s'.shells[other], s'.ids[other])
    {
      if other != fd {
        OtherClientApart(s, fd, other);
        OthersKeep(s.pool.history, s'.pool.history, s.pool.issued, l.shell.table, s.shells[other], s.ids[other]);
      }
    }
  }

  lemma QuietEvent(h: seq<Event>, e: Event)
    requires Unmixed(h) && (e.Entered? || e.Left?)
    ensures Unmixed(h + [e]) && Outputs(h + [e]) == Outputs(h) && Sent(h + [e]) == Sent(h)
    ensures Writers(h + [e]) == WritersAfter(Writers(h), e)
  {
    hide Unmixed, Outputs, Writers, Sent, Received, Read, Abandoned, Waiting, Online;
    WrittenAfter(h, e);
    After(h, e);
    UnmixedAppend(h, e);
  }

  lemma EnterTidy(s: Server, fd: nat)
    requires Sound(s) && AllTidy(s) && fd !in s.ids
    ensures AllTidy(Enter(s, fd))
  {
    NoMailboxes();
    hide Sound, Unmixed, Outputs, Writers, Sent, NewSession, RegistryText.LowestFree;
    QuietEvent(s.pool.history, Entered(RegistryText.LowestFree(s.ids.Values)));
  }

  lemma LeaveTidy(s: Server, fd: nat)
    requires Sound(s) && AllTidy(s) && fd in s.ids
    ensures AllTidy(Leave(s, fd))
  {
    assert Injective(s.ids);
    hide Sound, Unmixed, Outputs, Writers, Sent, OwnSlots, OwnMailboxes, AllWritten;
    var s' := Leave(s, fd);
    QuietEvent(s.pool.history, Left(s.ids[fd]));
    forall other | other in s'.shells && other in s'.ids
      ensures ClientTidy(s'.pool.history, s'.shells[other], s'.ids[other])
    {
      assert s.ids[other] != s.ids[fd];
      LeftTidy(s.pool.history, s.ids[fd], s.shells[other], s.ids[other]);
    }
  }

  /** The departure of another user. */
  lemma LeftTidy(h: seq<Event>, id: nat, sh: Shell, user: nat)
    requires Unmixed(h) && ClientTidy(h, sh, user) && user != id
    ensures ClientTidy(h + [Left(id)], sh, user)
  {
    hide Unmixed, Outputs, Writers, Sent;
    QuietEvent(h, Left(id));
  }

  lemma StepTidy(s: Server, r: Request)
    requires Sound(s) && AllTidy(s)
    ensures AllTidy(Step(s, r))
  {
    hide Sound, AllTidy, Execute, Exits, Enter, Leave, StaysGone;
    match r {
      case Connect(fd) =>
        if fd !in s.ids { EnterTidy(s, fd); }
      case Line(fd, actions) =>
        if fd in s.ids && fd in s.shells {
          ExecuteTidy(s, fd, actions);
          ExecuteKeeps(s, fd, actions);
          LeaveTidy(Execute(s, fd, actions), fd);
        }
    }
  }

  lemma {:induction false} RunTidy(s: Server, requests: seq<Request>)
    requires Sound(s) && AllTidy(s)
    ensures AllTidy(Run(s, requests))
    decreases |requests|
  {
    hide Sound, AllTidy, Step, StaysGone;
    if requests != [] {
      StepKeeps(s, requests[0]);
      StepTidy(s, requests[0]);
      RunTidy(Step(s, requests[0]), requests[1..]);
    }
  }

  // ---------- the results ----------

  lemma RunIsUnmixed(requests: seq<Request>)
    ensures Unmixed(Run(EMPTY_SERVER, requests).pool.history)
  {
    EmptySound();
    RunTidy(EMPTY_SERVER, requests);
  }

  /** In every run, all commands that write to one pipe are commands of one user, who has not left in between. */
  lemma PipeOfOneClient(requests: seq<Request>, k: nat, l: nat)
    ensures var h := Run(EMPTY_SERVER, requests).pool.history;
            k < l < |h| && h[k].Forked? && h[l].Forked? && h[k].output.Pipe? && h[l].output == h[k].output ==>
              h[l].user == h[k].user && forall i | k < i < l :: h[i] != Left(h[k].user)
  {
    RunIsUnmixed(requests);
    var h := Run(EMPTY_SERVER, requests).pool.history;
    hide Run, Unmixed;
    if k < l < |h| && h[k].Forked? && h[l].Forked? && h[k].output.Pipe? && h[l].output == h[k].output {
      OneWriter(h, k, l);
    }
  }

  /** In every run, the only command that ever writes to a user pipe, before or after it is opened, is the one
      its sender ran when it was opened. */
  lemma UserPipeOfSender(requests: seq<Request>, c: nat, w: nat)
    ensures var h := Run(EMPTY_SERVER, requests).pool.history;
            c < |h| && h[c].Created? && w < |h| && h[w].Forked? && h[w].output == Pipe(h[c].pipe) ==>
              w == c + 1 && h[w].user == h[c].key.0
  {
    RunIsUnmixed(requests);
    RunIsLegal(requests);
    var h := Run(EMPTY_SERVER, requests).pool.history;
    hide Run, Unmixed, Legal, Sound;
    if c < |h| && h[c].Created? && w < |h| && h[w].Forked? && h[w].output == Pipe(h[c].pipe) {
      WrittenBySender(h, c, w);
    }
  }

  /** In every run, a command that reads a pipe that no user has sent reads what its own user's commands wrote to
      it since the user entered, and nothing that others wrote. */
  lemma ReadsOwnPipes(requests: seq<Request>, r: nat, pipe: nat)
    ensures var h := Run(EMPTY_SERVER, requests).pool.history;
            r < |h| && h[r].Forked? && h[r].input == Pipe(pipe) && pipe !in Sent(h[..r]) ==>
              && (exists k :: 0 <= k < r && h[k].Forked? && h[k].output == Pipe(pipe))
              && forall w | 0 <= w < |h| && h[w].Forked? && h[w].output == Pipe(pipe) ::
                   h[w].user == h[r].user && forall i | w < i < r :: h[i] != Left(h[r].user)
  {
    RunIsUnmixed(requests);
    var h := Run(EMPTY_SERVER, requests).pool.history;
    hide Run, Unmixed, Sent;
    if r < |h| && h[r].Forked? && h[r].input == Pipe(pipe) && pipe !in Sent(h[..r]) {
      var k := ReadsOwnWrites(h, r, pipe);
      forall w | 0 <= w < |h| && h[w].Forked? && h[w].output == Pipe(pipe)
        ensures h[w].user == h[r].user && forall i | w < i < r :: h[i] != Left(h[r].user)
      {
        if k < w { OneWriter(h, k, w); }
      }
    }
  }
}
