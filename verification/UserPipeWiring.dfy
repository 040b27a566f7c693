/** Every client of the single-process server is wired as the graph says, user pipes included, whatever the
    other clients do between its lines. */
module UserPipeWiring {
  import opened Text
  import opened UserPipeHistory
  import opened UserPipes
  import opened UserPipeGraph
  import PipeGraph
  import RegistryText
  import UserPipeWriters

  // ---------- slots and nodes ----------

  /** There is one pipe of the server for every node written so far. */
  ghost predicate NamesFit(pipes: Pipes, issued: nat, past: seq<Done>) {
    && Injective(pipes)
    && (forall node :: node in pipes <==> Written(past, node))
    && (forall node | node in pipes :: pipes[node] < issued)
  }

  /** The slots hold what the graph says the next steps will read; the slot of `<i` is told apart. */
  ghost predicate SlotsFit(sh: Shell, pipes: Pipes, past: seq<Done>) {
    && sh.session == Session(past)
    && sh.link == NodeStream(pipes, Before(past))
    && sh.due == (if MailTaken(past) then Terminal else NodeStream(pipes, Some(PipeGraph.Mailbox(Session(past)))))
    && TableFits(sh.table, pipes, sh.session)
  }

  ghost predicate TableFits(table: map<nat, nat>, pipes: Pipes, session: nat) {
    && (forall t: nat :: t in table <==> t > session && PipeGraph.Mailbox(t) in pipes)
    && (forall t: nat | t in table :: table[t] == pipes[PipeGraph.Mailbox(t)])
  }

  function HeldStream(past: seq<Done>): Stream {
    if Held(past).Some? then Pipe(Held(past).value) else Terminal
  }

  ghost predicate Extends(pipes: Pipes, pipes': Pipes) {
    forall node | node in pipes :: node in pipes' && pipes'[node] == pipes[node]
  }

  /** The pipes after a step, when the next pipe to be opened is the given one. */
  function NextPipes(pipes: Pipes, past: seq<Done>, d: Done, issued: nat): Pipes {
    var target := Target(past, d.action);
    if target.Some? && target.value !in pipes then pipes[target.value := issued] else pipes
  }

  lemma NamesStep(pipes: Pipes, past: seq<Done>, d: Done, issued: nat, issued': nat)
    requires NamesFit(pipes, issued, past) && issued <= issued'
    requires Target(past, d.action).Some? && Target(past, d.action).value !in pipes ==> issued < issued'
    ensures NamesFit(NextPipes(pipes, past, d, issued), issued', past + [d])
    ensures Extends(pipes, NextPipes(pipes, past, d, issued))
    ensures Target(past, d.action).Some? ==> Target(past, d.action).value in NextPipes(pipes, past, d, issued)
  {
    hide Written, Target;
    var pipes' := NextPipes(pipes, past, d, issued);
    forall node ensures node in pipes' <==> Written(past + [d], node) { WrittenStep(past, d, node); }
  }

  // ---------- one command, from its input on ----------

  /** The command's shell after a fork whose output does not go to the next command. */
  lemma EndsFit(sh: Shell, pipes: Pipes, past: seq<Done>, d: Done)
    requires Ends(d.action) && sh.session == Session(past) && TableFits(sh.table, pipes, sh.session)
    ensures SlotsFit(NewSession(sh), pipes, past + [d]) && NewSession(sh).taken == Terminal == HeldStream(past + [d])
  {
    FrontOf(past, d);
    MailStep(past, d);
    hide MailTaken;
  }

  lemma NextLink(pipes: Pipes, past: seq<Done>, d: Done, issued: nat)
    requires FeedsNext(d.action) && NamesFit(pipes, issued, past)
    ensures NextPipes(pipes, past, d, issued) == pipes[PipeGraph.Link(|past|) := issued]
  {
    hide Written;
    FreshLink(past, |past|);
  }

  lemma FeedsFit(sh: Shell, pipes: Pipes, past: seq<Done>, d: Done, issued: nat)
    requires FeedsNext(d.action) && SlotsFit(sh, pipes, past)
    ensures var sh' := Feed(sh, d.action.Receive?).(link := Pipe(issued));
            SlotsFit(sh', pipes[PipeGraph.Link(|past|) := issued], past + [d])
  {
    hide MailTaken;
    FrontOf(past, d);
    MailStep(past, d);
  }

  lemma {:induction false} FreshLink(past: seq<Done>, k: nat)
    requires |past| <= k
    ensures !Written(past, PipeGraph.Link(k))
  {
  }

  lemma TableLater(sh: Shell, pipes: Pipes, past: seq<Done>)
    requires SlotsFit(sh, pipes, past)
    ensures sh.session == Session(past) && TableFits(sh.table, pipes, sh.session)
  {
  }

  /** The mailbox of a later session, reserved. */
  lemma ReserveFits(l: Local, pipes: Pipes, past: seq<Done>, d: Done)
    requires SlotsFit(l.shell, pipes, past) && Target(past, d.action).Some? && d.action.out.ToSession?
    ensures var r := Reserve(l, l.shell.session + d.action.out.ahead);
            var pipes' := NextPipes(pipes, past, d, l.pool.issued);
            && TableFits(r.shell.table, pipes', r.shell.session)
            && NodeStream(pipes', Target(past, d.action)) == Pipe(r.shell.table[l.shell.session + d.action.out.ahead])
            && r.pool.issued == l.pool.issued + (if Target(past, d.action).value in pipes then 0 else 1)
            && r.shell == l.shell.(table := r.shell.table)
            && Input(r.shell, d.action.Receive?) == Input(l.shell, d.action.Receive?)
            && r.pool.history == l.pool.history
  {
  }

  /** What a command that takes no user pipe is given. */
  lemma SessionInput(sh: Shell, pipes: Pipes, past: seq<Done>, d: Done, issued: nat)
    requires SlotsFit(sh, pipes, past) && NamesFit(pipes, issued, past) && !Receives(d.action)
    ensures Input(sh, false) == InputStream(pipes, Reads(past, d))
  {
    if Before(past).Some? { BeforeWritten(past); }
    hide MailTaken, Written;
  }

  /** The event of a fork. */
  function Given(me: nat, pipes: Pipes, past: seq<Done>, d: Done, input: Stream): Event
    requires d.action.Plain? || d.action.Receive?
  {
    Forked(me, d.action.name, d.action.args, input, OutputStream(pipes, past, d), ErrorStream(pipes, past, d))
  }

  /** After the command: the slots, the names, the slot of `<i`, and the event. */
  ghost predicate ForkFits(me: nat, l: Local, l': Local, pipes': Pipes, past: seq<Done>, d: Done)
    requires d.action.Plain? || d.action.Receive?
  {
    && SlotsFit(l'.shell, pipes', past + [d]) && NamesFit(pipes', l'.pool.issued, past + [d])
    && l'.pool.history == l.pool.history + [Given(me, pipes', past, d, Input(l.shell, d.action.Receive?))]
    && l'.shell.taken == (if FeedsNext(d.action) then Feed(l.shell, d.action.Receive?).taken else Terminal)
  }

  lemma LinkForkFits(me: nat, l: Local, pipes: Pipes, past: seq<Done>, d: Done)
    requires FeedsNext(d.action) && SlotsFit(l.shell, pipes, past) && NamesFit(pipes, l.pool.issued, past)
    ensures ForkFits(me, l, Fork(me, l, d.action.name, d.action.args, d.action.Receive?, d.action.out),
                     NextPipes(pipes, past, d, l.pool.issued), past, d)
  {
    hide Input, SlotsFit, NamesFit;
    NextLink(pipes, past, d, l.pool.issued);
    FeedsFit(l.shell, pipes, past, d, l.pool.issued);
    NamesStep(pipes, past, d, l.pool.issued, l.pool.issued + 1);
  }

  lemma MailboxForkFits(me: nat, l: Local, pipes: Pipes, past: seq<Done>, d: Done)
    requires (d.action.Plain? || d.action.Receive?) && d.action.out.ToSession?
    requires SlotsFit(l.shell, pipes, past) && NamesFit(pipes, l.pool.issued, past)
    ensures ForkFits(me, l, Fork(me, l, d.action.name, d.action.args, d.action.Receive?, d.action.out),
                     NextPipes(pipes, past, d, l.pool.issued), past, d)
  {
    hide Input, SlotsFit, NamesFit, TableFits, NewSession, Reserve;
    var r := Reserve(l, l.shell.session + d.action.out.ahead);
    var pipes' := NextPipes(pipes, past, d, l.pool.issued);
    TableLater(l.shell, pipes, past);
    ReserveFits(l, pipes, past, d);
    NamesStep(pipes, past, d, l.pool.issued, r.pool.issued);
    EndsFit(Feed(r.shell, d.action.Receive?), pipes', past, d);
  }

  lemma LastForkFits(me: nat, l: Local, pipes: Pipes, past: seq<Done>, d: Done)
    requires (d.action.Plain? || d.action.Receive?) && (d.action.out.ToFile? || d.action.out.ToConsole?)
    requires SlotsFit(l.shell, pipes, past) && NamesFit(pipes, l.pool.issued, past)
    ensures ForkFits(me, l, Fork(me, l, d.action.name, d.action.args, d.action.Receive?, d.action.out),
                     NextPipes(pipes, past, d, l.pool.issued), past, d)
  {
    hide Input, SlotsFit, NamesFit, TableFits, NewSession;
    TableLater(l.shell, pipes, past);
    NamesStep(pipes, past, d, l.pool.issued, l.pool.issued);
    EndsFit(Feed(l.shell, d.action.Receive?), pipes, past, d);
  }

  lemma AnyForkFits(me: nat, l: Local, pipes: Pipes, past: seq<Done>, d: Done)
    requires (d.action.Plain? || d.action.Receive?)
    requires SlotsFit(l.shell, pipes, past) && NamesFit(pipes, l.pool.issued, past)
    ensures ForkFits(me, l, Fork(me, l, d.action.name, d.action.args, d.action.Receive?, d.action.out),
                     NextPipes(pipes, past, d, l.pool.issued), past, d)
  {
    hide SlotsFit, NamesFit, ForkFits, Fork;
    match d.action.out
    case ToNext => LinkForkFits(me, l, pipes, past, d);
    case ToSession(_, _) => MailboxForkFits(me, l, pipes, past, d);
    case _ => LastForkFits(me, l, pipes, past, d);
  }

  // ---------- whole actions ----------

  /** The answers that an action gets. */
  function TakingOf(users: set<nat>, me: nat, l: Local, a: Action): Taking {
    if !Receives(a) then NotTaking
    else if a.from !in users then NoSender
    else if (a.from, me) !in l.pool.waiting then NoneWaiting
    else Took(l.pool.waiting[(a.from, me)])
  }

  function OpeningOf(users: set<nat>, me: nat, l: Local, a: Action): Opening {
    if !Sends(a) then NotOpening
    else
      var pool := if Receives(a) then Take(users, me, l, a.from).pool else l.pool;
      if a.to !in users then NoReceiver
      else if (me, a.to) in pool.waiting then Busy
      else Opened(pool.issued)
  }

  function DoneOf(users: set<nat>, me: nat, l: Local, a: Action): Done {
    Done(a, TakingOf(users, me, l, a), OpeningOf(users, me, l, a))
  }

  ghost predicate Fits(l: Local, pipes: Pipes, past: seq<Done>) {
    SlotsFit(l.shell, pipes, past) && NamesFit(pipes, l.pool.issued, past) && l.shell.taken == HeldStream(past)
  }

  /** The action leaves the slots as the graph expects them, and has done exactly what the graph says. */
  ghost predicate ActFits(me: nat, l: Local, l': Local, pipes': Pipes, past: seq<Done>, d: Done) {
    Fits(l', pipes', past + [d]) && l'.pool.history == l.pool.history + StepEvents(me, pipes', past, d)
  }

  lemma SameInput(pipes: Pipes, past: seq<Done>, d: Done, issued: nat, next: nat)
    requires NamesFit(pipes, issued, past)
    ensures InputStream(NextPipes(pipes, past, d, next), Reads(past, d)) == InputStream(pipes, Reads(past, d))
  {
    hide Reads, Target;
    if Reads(past, d).FromNode? { ReadsWritten(past, d); }
  }

  lemma TakeFits(users: set<nat>, me: nat, l: Local, pipes: Pipes, past: seq<Done>, d: Done)
    requires Receives(d.action) && d.taking == TakingOf(users, me, l, d.action) && Fits(l, pipes, past)
    ensures var l1 := Take(users, me, l, d.action.from);
            && SlotsFit(l1.shell, pipes, past) && NamesFit(pipes, l1.pool.issued, past)
            && l1.pool.history == l.pool.history + TakeEvents(me, d) && l1.pool.issued == l.pool.issued
            && Input(l1.shell, true) == InputStream(pipes, Reads(past, d))
            && l1.shell.taken == (match d.taking case Took(p) => Pipe(p) case NoSender => l.shell.taken case _ => Terminal)
  {
    hide NamesFit, MailTaken, Written;
  }

  lemma OwnFits(users: set<nat>, me: nat, l: Local, pipes: Pipes, past: seq<Done>, d: Done)
    requires d.action.Own? && Fits(l, pipes, past)
    ensures ActFits(me, l, Act(users, me, l, d.action), NextPipes(pipes, past, d, l.pool.issued), past, d)
  {
    hide TableFits, SlotsFit, NamesFit, NewSession;
    TableLater(l.shell, pipes, past);
    NamesStep(pipes, past, d, l.pool.issued, l.pool.issued);
    EndsFit(l.shell, pipes, past, d);
  }

  lemma PlainFits(users: set<nat>, me: nat, l: Local, pipes: Pipes, past: seq<Done>, d: Done)
    requires d.action.Plain? && d == DoneOf(users, me, l, d.action) && Fits(l, pipes, past)
    ensures ActFits(me, l, Act(users, me, l, d.action), NextPipes(pipes, past, d, l.pool.issued), past, d)
  {
    hide SlotsFit, NamesFit, Fork, Input, Reads, InputStream, NextPipes, OutputStream, ErrorStream;
    FrontOf(past, d);
    SessionInput(l.shell, pipes, past, d, l.pool.issued);
    SameInput(pipes, past, d, l.pool.issued, l.pool.issued);
    AnyForkFits(me, l, pipes, past, d);
  }

  lemma ReceiveFits(users: set<nat>, me: nat, l: Local, pipes: Pipes, past: seq<Done>, d: Done)
    requires d.action.Receive? && d == DoneOf(users, me, l, d.action) && Fits(l, pipes, past)
    ensures ActFits(me, l, Act(users, me, l, d.action), NextPipes(pipes, past, d, l.pool.issued), past, d)
  {
    hide SlotsFit, NamesFit, Fork, Input, Reads, InputStream, NextPipes, OutputStream, ErrorStream, Take, TakeEvents;
    FrontOf(past, d);
    var l1 := Take(users, me, l, d.action.from);
    TakeFits(users, me, l, pipes, past, d);
    SameInput(pipes, past, d, l1.pool.issued, l1.pool.issued);
    AnyForkFits(me, l1, pipes, past, d);
  }

  lemma TakeOnlyFits(users: set<nat>, me: nat, l: Local, pipes: Pipes, past: seq<Done>, d: Done)
    requires d.action.TakeOnly? && d == DoneOf(users, me, l, d.action) && Fits(l, pipes, past)
    ensures ActFits(me, l, Act(users, me, l, d.action), NextPipes(pipes, past, d, l.pool.issued), past, d)
  {
    hide NamesFit, MailTaken, Written, Take, TakeEvents;
    FrontOf(past, d);
    MailStep(past, d);
    TakeFits(users, me, l, pipes, past, d);
    NamesStep(pipes, past, d, l.pool.issued, Take(users, me, l, d.action.from).pool.issued);
  }

  /** The opening that a send gets from this pool. */
  predicate Answered(users: set<nat>, me: nat, pool: Pool, d: Done)
    requires Sends(d.action)
  {
    d.opening == if d.action.to !in users then NoReceiver
                 else if (me, d.action.to) in pool.waiting then Busy
                 else Opened(pool.issued)
  }

  lemma OpenFits(users: set<nat>, me: nat, pool: Pool, pipes: Pipes, past: seq<Done>, d: Done)
    requires Sends(d.action) && Answered(users, me, pool, d)
    ensures var pool' := Open(users, me, pool, d.action.to);
            && pool'.history == pool.history + OpenEvents(me, d) && pool.issued <= pool'.issued
            && OutputStream(pipes, past, d) == (if CanOpen(users, me, pool, d.action.to) then Pipe(pool.issued) else Null)
            && ErrorStream(pipes, past, d) == Terminal && NextPipes(pipes, past, d, pool.issued) == pipes
  {
  }

  lemma SendToFits(users: set<nat>, me: nat, l: Local, pipes: Pipes, past: seq<Done>, d: Done)
    requires Sends(d.action) && Answered(users, me, l.pool, d)
    requires SlotsFit(l.shell, pipes, past) && NamesFit(pipes, l.pool.issued, past)
    requires Input(l.shell, d.action.SendReceive?) == InputStream(pipes, Reads(past, d))
    ensures var l' := SendTo(users, me, l, d.action.name, d.action.args, d.action.SendReceive?, d.action.to);
            && Fits(l', pipes, past + [d])
            && l'.pool.history == l.pool.history + OpenEvents(me, d) + CommandEvents(me, pipes, past, d)
  {
    hide TableFits, SlotsFit, NamesFit, NewSession, Open, CanOpen, Input, Reads, InputStream, OutputStream, ErrorStream, NextPipes;
    hide OpenEvents, Answered;
    TableLater(l.shell, pipes, past);
    OpenFits(users, me, l.pool, pipes, past, d);
    NamesStep(pipes, past, d, l.pool.issued, Open(users, me, l.pool, d.action.to).issued);
    EndsFit(Feed(l.shell, d.action.SendReceive?), pipes, past, d);
  }

  lemma SendFits(users: set<nat>, me: nat, l: Local, pipes: Pipes, past: seq<Done>, d: Done)
    requires d.action.Send? && d == DoneOf(users, me, l, d.action) && Fits(l, pipes, past)
    ensures ActFits(me, l, Act(users, me, l, d.action), pipes, past, d)
  {
    hide SlotsFit, NamesFit, SendTo, Input, Reads, InputStream, OpenEvents, CommandEvents;
    SessionInput(l.shell, pipes, past, d, l.pool.issued);
    SendToFits(users, me, l, pipes, past, d);
    NoTaking(me, d);
  }

  lemma NoTaking(me: nat, d: Done)
    requires !Receives(d.action)
    ensures TakeEvents(me, d) == []
  {
  }

  lemma SendReceiveFits(users: set<nat>, me: nat, l: Local, pipes: Pipes, past: seq<Done>, d: Done)
    requires d.action.SendReceive? && d == DoneOf(users, me, l, d.action) && Fits(l, pipes, past)
    ensures ActFits(me, l, Act(users, me, l, d.action), pipes, past, d)
  {
    hide SlotsFit, NamesFit, SendTo, Input, Reads, InputStream, OpenEvents, CommandEvents, Take, TakeEvents;
    TakeFits(users, me, l, pipes, past, d);
    SendToFits(users, me, Take(users, me, l, d.action.from), pipes, past, d);
    Regroup(l.pool.history, TakeEvents(me, d), OpenEvents(me, d), CommandEvents(me, pipes, past, d));
  }

  lemma Regroup(h: seq<Event>, a: seq<Event>, b: seq<Event>, c: seq<Event>)
    ensures h + a + b + c == h + (a + b + c)
  {
  }

  lemma ActIsWired(users: set<nat>, me: nat, l: Local, pipes: Pipes, past: seq<Done>, a: Action)
    returns (d: Done, pipes': Pipes)
    requires Fits(l, pipes, past)
    ensures d == DoneOf(users, me, l, a) && Extends(pipes, pipes') && pipes' == NextPipes(pipes, past, d, l.pool.issued)
    ensures ActFits(me, l, Act(users, me, l, a), pipes', past, d)
  {
    d := DoneOf(users, me, l, a);
    pipes' := NextPipes(pipes, past, d, l.pool.issued);
    Grown(pipes, past, d, l.pool.issued);
    hide Fits, ActFits, Act, Extends;
    match a
    case Own(_, _) => OwnFits(users, me, l, pipes, past, d);
    case Plain(_, _, _) => PlainFits(users, me, l, pipes, past, d);
    case Receive(_, _, _, _) => ReceiveFits(users, me, l, pipes, past, d);
    case TakeOnly(_) => TakeOnlyFits(users, me, l, pipes, past, d);
    case Send(_, _, _) => SendFits(users, me, l, pipes, past, d);
    case SendReceive(_, _, _, _) => SendReceiveFits(users, me, l, pipes, past, d);
  }

  lemma Grown(pipes: Pipes, past: seq<Done>, d: Done, issued: nat)
    ensures Extends(pipes, NextPipes(pipes, past, d, issued))
    ensures !(d.action.Plain? || d.action.Receive?) ==> NextPipes(pipes, past, d, issued) == pipes
  {
  }

  // ---------- the client's own events ----------

  lemma MineAppend(h: seq<Event>, e: Event, me: nat, n: nat)
    requires n <= |h|
    ensures Mine((h + [e])[n..], me) == Mine(h[n..], me) + (if Tells(e, me) then [e] else [])
  {
    assert (h + [e])[n..] == h[n..] + [e];
    assert (h[n..] + [e])[..|h[n..]|] == h[n..];
  }

  lemma {:induction false} MineAll(h: seq<Event>, es: seq<Event>, me: nat, n: nat)
    requires n <= |h| && forall e | e in es :: Tells(e, me)
    ensures Mine((h + es)[n..], me) == Mine(h[n..], me) + es
    decreases |es|
  {
    hide Tells, Mine;
    if es == [] {
      assert h + es == h;
    } else {
      var most, last := es[..|es| - 1], es[|es| - 1];
      assert h + es == (h + most) + [last] && es == most + [last];
      MineAll(h, most, me, n);
      MineAppend(h + most, last, me, n);
    }
  }

  lemma StepTells(me: nat, pipes: Pipes, past: seq<Done>, d: Done)
    ensures forall e | e in StepEvents(me, pipes, past, d) :: Tells(e, me)
  {
    hide Reads, InputStream, OutputStream, ErrorStream;
  }

  lemma StepToldLater(me: nat, pipes: Pipes, pipes': Pipes, past: seq<Done>, d: Done)
    requires Extends(pipes, pipes') && forall node | Written(past + [d], node) :: node in pipes
    ensures StepEvents(me, pipes', past, d) == StepEvents(me, pipes, past, d)
  {
    hide Target, Written, Before, MailTaken, Held;
    if Reads(past, d).FromNode? {
      ReadsWritten(past, d);
      WrittenStep(past, d, Reads(past, d).node);
    }
    if Target(past, d.action).Some? { WrittenStep(past, d, Target(past, d.action).value); }
    hide Reads;
  }

  lemma {:induction false} ToldLater(me: nat, pipes: Pipes, pipes': Pipes, done: seq<Done>)
    requires Extends(pipes, pipes') && forall node | Written(done, node) :: node in pipes
    ensures Told(me, pipes', done) == Told(me, pipes, done)
  {
    if done != [] {
      hide Written, StepEvents, Extends;
      var past, d := done[..|done| - 1], done[|done| - 1];
      assert done == past + [d];
      forall node | Written(past, node) ensures Written(done, node) { WrittenStep(past, d, node); }
      ToldLater(me, pipes, pipes', past);
      StepToldLater(me, pipes, pipes', past, d);
    }
  }

  // ---------- links and mailboxes are no user pipes ----------

  /** The pipes of the nodes are not among those that were sent. */
  ghost predicate Unsent(pipes: Pipes, pool: Pool) {
    && (forall p | p in Sent(pool.history) :: p < pool.issued)
    && (forall node | node in pipes :: pipes[node] !in Sent(pool.history))
  }

  /** The history goes on; what has been sent in between was opened in between, and if `none`, nothing was sent. */
  ghost predicate SentSince(pool: Pool, pool': Pool, none: bool) {
    && pool.issued <= pool'.issued && pool.history <= pool'.history
    && forall p | p in Sent(pool'.history) ::
         p in Sent(pool.history) || (!none && pool.issued <= p < pool'.issued)
  }

  lemma SentOn(pool: Pool, pool1: Pool, pool2: Pool, none: bool)
    requires SentSince(pool, pool1, none) && SentSince(pool1, pool2, none)
    ensures SentSince(pool, pool2, none)
  {
    hide Sent;
  }

  lemma SentWeaker(pool: Pool, pool': Pool, none: bool)
    requires SentSince(pool, pool', true)
    ensures SentSince(pool, pool', none)
  {
  }

  lemma NoteSent(pool: Pool, pool': Pool, e: Event)
    requires pool'.history == pool.history + [e] && pool.issued <= pool'.issued
    requires e.Created? ==> pool.issued <= e.pipe < pool'.issued
    ensures SentSince(pool, pool', !e.Created?)
  {
    After(pool.history, e);
    hide Sent;
  }

  lemma TakeSent(users: set<nat>, me: nat, l: Local, from: nat)
    ensures SentSince(l.pool, Take(users, me, l, from).pool, true)
  {
    hide SentSince;
    var pool := Take(users, me, l, from).pool;
    NoteSent(l.pool, pool, pool.history[|l.pool.history|]);
  }

  lemma StartSent(me: nat, l: Local, pool': Pool, e: Event)
    requires pool'.history == l.pool.history + [e] && e.Forked? && l.pool.issued <= pool'.issued
    ensures SentSince(l.pool, pool', true)
  {
    NoteSent(l.pool, pool', e);
  }

  lemma ForkSent(me: nat, l: Local, name: string, args: seq<string>, fromUser: bool, out: Output)
    ensures SentSince(l.pool, Fork(me, l, name, args, fromUser, out).pool, true)
  {
    hide SentSince, NewSession, Input;
    var pool := Fork(me, l, name, args, fromUser, out).pool;
    StartSent(me, l, pool, pool.history[|l.pool.history|]);
  }

  lemma SendSent(users: set<nat>, me: nat, l: Local, name: string, args: seq<string>, fromUser: bool, to: nat)
    ensures SentSince(l.pool, SendTo(users, me, l, name, args, fromUser, to).pool, false)
  {
    hide SentSince, NewSession, Input;
    var pool1 := Open(users, me, l.pool, to);
    var e := pool1.history[|l.pool.history|];
    NoteSent(l.pool, pool1, e);
    SentWeakerIf(l.pool, pool1, !e.Created?);
    var pool2 := SendTo(users, me, l, name, args, fromUser, to).pool;
    NoteSent(pool1, pool2, pool2.history[|pool1.history|]);
    SentWeaker(pool1, pool2, false);
    SentOn(l.pool, pool1, pool2, false);
  }

  lemma SentWeakerIf(pool: Pool, pool': Pool, none: bool)
    requires SentSince(pool, pool', none)
    ensures SentSince(pool, pool', false)
  {
  }

  lemma ActSent(users: set<nat>, me: nat, l: Local, a: Action)
    ensures SentSince(l.pool, Act(users, me, l, a).pool, !Sends(a))
  {
    hide SentSince, NewSession, Take, Fork, SendTo;
    match a {
      case Own(name, args) => NoteSent(l.pool, Note(l.pool, Ran(me, name, args)), Ran(me, name, args));
      case Plain(name, args, out) => ForkSent(me, l, name, args, false, out);
      case Receive(name, args, from, out) =>
        var l1 := Take(users, me, l, from);
        TakeSent(users, me, l, from);
        ForkSent(me, l1, name, args, true, out);
        SentOn(l.pool, l1.pool, Fork(me, l1, name, args, true, out).pool, true);
      case TakeOnly(from) => TakeSent(users, me, l, from);
      case Send(name, args, to) => SendSent(users, me, l, name, args, false, to);
      case SendReceive(name, args, from, to) =>
        var l1 := Take(users, me, l, from);
        TakeSent(users, me, l, from);
        SentWeaker(l.pool, l1.pool, false);
        SendSent(users, me, l1, name, args, true, to);
        SentOn(l.pool, l1.pool, SendTo(users, me, l1, name, args, true, to).pool, false);
    }
  }

  lemma {:induction false} LineSent(users: set<nat>, me: nat, l: Local, actions: seq<Action>)
    ensures SentSince(l.pool, ActAll(users, me, l, actions).pool, false)
    decreases |actions|
  {
    if actions != [] {
      hide SentSince, Act;
      var l1 := Act(users, me, l, actions[0]);
      ActSent(users, me, l, actions[0]);
      SentWeakerIf(l.pool, l1.pool, !Sends(actions[0]));
      LineSent(users, me, l1, actions[1..]);
      SentOn(l.pool, l1.pool, ActAll(users, me, l1, actions[1..]).pool, false);
    }
  }

  lemma UnsentLater(pipes: Pipes, pool: Pool, pool': Pool)
    requires Unsent(pipes, pool) && SentSince(pool, pool', false) && forall node | node in pipes :: pipes[node] < pool.issued
    ensures Unsent(pipes, pool')
  {
    hide Sent;
  }

  lemma ActUnsent(users: set<nat>, me: nat, l: Local, pipes: Pipes, past: seq<Done>, a: Action)
    requires Unsent(pipes, l.pool) && NamesFit(pipes, l.pool.issued, past)
    ensures Unsent(NextPipes(pipes, past, DoneOf(users, me, l, a), l.pool.issued), Act(users, me, l, a).pool)
  {
    hide Sent, Act, DoneOf, Written;
    ActSent(users, me, l, a);
    assert DoneOf(users, me, l, a).action == a by { Unasked(users, me, l, a); }
    hide Act;
  }

  lemma Unasked(users: set<nat>, me: nat, l: Local, a: Action)
    ensures DoneOf(users, me, l, a).action == a
  {
  }

  // ---------- the client's steps, one after the other ----------

  /** Since event n, user `me` has done exactly what the graph says, and its slots are as the graph expects. */
  ghost predicate InStep(l: Local, pipes: Pipes, past: seq<Done>, me: nat, n: nat) {
    && Fits(l, pipes, past) && Proper(past) && Unsent(pipes, l.pool)
    && n <= |l.pool.history| && Mine(l.pool.history[n..], me) == Told(me, pipes, past)
  }

  lemma ProperStep(past: seq<Done>, users: set<nat>, me: nat, l: Local, a: Action)
    requires Proper(past)
    ensures Proper(past + [DoneOf(users, me, l, a)]) && ActionsOf(past + [DoneOf(users, me, l, a)]) == ActionsOf(past) + [a]
  {
    FrontOf(past, DoneOf(users, me, l, a));
  }

  lemma NamesHere(l: Local, pipes: Pipes, past: seq<Done>)
    requires Fits(l, pipes, past)
    ensures NamesFit(pipes, l.pool.issued, past)
  {
  }

  lemma NodesOf(l: Local, pipes: Pipes, past: seq<Done>)
    requires Fits(l, pipes, past)
    ensures Injective(pipes) && forall node :: node in pipes <==> Written(past, node)
  {
  }

  lemma ActInStep(users: set<nat>, me: nat, l: Local, pipes: Pipes, past: seq<Done>, a: Action, n: nat)
    returns (d: Done, pipes': Pipes)
    requires InStep(l, pipes, past, me, n)
    ensures InStep(Act(users, me, l, a), pipes', past + [d], me, n) && ActionsOf(past + [d]) == ActionsOf(past) + [a]
  {
    hide Fits, Act, Mine, StepEvents, Proper, Extends, ActionsOf, DoneOf, Written, Unsent, NamesFit, NextPipes;
    d, pipes' := ActIsWired(users, me, l, pipes, past, a);
    NamesHere(l, pipes, past);
    ActUnsent(users, me, l, pipes, past, a);
    ProperStep(past, users, me, l, a);
    FrontOf(past, d);
    NodesOf(l, pipes, past);
    ToldLater(me, pipes, pipes', past);
    StepTells(me, pipes', past, d);
    MineAll(l.pool.history, StepEvents(me, pipes', past, d), me, n);
  }

  lemma {:induction false} LineInStep(users: set<nat>, me: nat, l: Local, pipes: Pipes, past: seq<Done>,
                                      actions: seq<Action>, n: nat) returns (past': seq<Done>, pipes': Pipes)
    requires InStep(l, pipes, past, me, n)
    ensures InStep(ActAll(users, me, l, actions), pipes', past', me, n) && ActionsOf(past') == ActionsOf(past) + actions
    decreases |actions|
  {
    hide InStep, Act, ActionsOf;
    if actions == [] {
      return past, pipes;
    }
    var d, pipes1 := ActInStep(users, me, l, pipes, past, actions[0], n);
    past', pipes' := LineInStep(users, me, Act(users, me, l, actions[0]), pipes1, past + [d], actions[1..], n);
    assert ActionsOf(past) + [actions[0]] + actions[1..] == ActionsOf(past) + actions;
  }

  // ---------- what the others do ----------

  /** Nothing happened that concerns user `me`. */
  ghost predicate Quiet(l: Pool, l': Pool, me: nat, n: nat) {
    && l.issued <= l'.issued && |l.history| <= |l'.history|
    && (n <= |l.history| ==> Mine(l'.history[n..], me) == Mine(l.history[n..], me))
  }

  lemma NoteQuiet(pool: Pool, pool': Pool, e: Event, me: nat, n: nat)
    requires pool'.history == pool.history + [e] && pool.issued <= pool'.issued && !Tells(e, me)
    ensures Quiet(pool, pool', me, n)
  {
    if n <= |pool.history| {
      MineAppend(pool.history, e, me, n);
    }
  }

  lemma StartQuiet(other: nat, l: Local, name: string, args: seq<string>, fromUser: bool, output: Stream, err: Stream,
                   me: nat, n: nat)
    requires other != me
    ensures Quiet(l.pool, Start(other, l, name, args, fromUser, output, err).pool, me, n)
  {
    hide Mine;
    NoteQuiet(l.pool, Start(other, l, name, args, fromUser, output, err).pool,
              Forked(other, name, args, Input(l.shell, fromUser), output, err), me, n);
  }

  lemma TakeQuiet(users: set<nat>, other: nat, l: Local, from: nat, me: nat, n: nat)
    requires other != me
    ensures Quiet(l.pool, Take(users, other, l, from).pool, me, n)
  {
    hide Mine;
    var pool := Take(users, other, l, from).pool;
    NoteQuiet(l.pool, pool, pool.history[|l.pool.history|], me, n);
  }

  lemma OpenQuiet(users: set<nat>, other: nat, pool: Pool, to: nat, me: nat, n: nat)
    requires other != me
    ensures Quiet(pool, Open(users, other, pool, to), me, n)
  {
    hide Mine;
    var pool' := Open(users, other, pool, to);
    NoteQuiet(pool, pool', pool'.history[|pool.history|], me, n);
  }

  lemma ForkQuiet(other: nat, l: Local, name: string, args: seq<string>, fromUser: bool, out: Output, me: nat, n: nat)
    requires other != me
    ensures Quiet(l.pool, Fork(other, l, name, args, fromUser, out).pool, me, n)
  {
    hide Mine, Input, NewSession;
    match out
    case ToNext => StartQuiet(other, l, name, args, fromUser, Pipe(l.pool.issued), Terminal, me, n);
    case ToFile(file) => StartQuiet(other, l, name, args, fromUser, File(file), Terminal, me, n);
    case ToConsole => StartQuiet(other, l, name, args, fromUser, Terminal, Terminal, me, n);
    case ToSession(ahead, withErr) =>
      var r := Reserve(l, l.shell.session + ahead);
      var mailbox := Pipe(r.shell.table[l.shell.session + ahead]);
      StartQuiet(other, r, name, args, fromUser, mailbox, if withErr then mailbox else Terminal, me, n);
  }

  lemma SendQuiet(users: set<nat>, other: nat, l: Local, name: string, args: seq<string>, fromUser: bool, to: nat,
                  me: nat, n: nat)
    requires other != me
    ensures Quiet(l.pool, SendTo(users, other, l, name, args, fromUser, to).pool, me, n)
  {
    hide Mine, Input, NewSession, Start, Open;
    OpenQuiet(users, other, l.pool, to, me, n);
    var output := if CanOpen(users, other, l.pool, to) then Pipe(l.pool.issued) else Null;
    StartQuiet(other, l.(pool := Open(users, other, l.pool, to)), name, args, fromUser, output, Terminal, me, n);
  }

  lemma ActQuiet(users: set<nat>, other: nat, l: Local, a: Action, me: nat, n: nat)
    requires other != me
    ensures Quiet(l.pool, Act(users, other, l, a).pool, me, n)
  {
    hide Mine, NewSession, Take, Fork, SendTo;
    match a
    case Own(name, args) =>
      NoteQuiet(l.pool, Note(l.pool, Ran(other, name, args)), Ran(other, name, args), me, n);
    case Plain(name, args, out) => ForkQuiet(other, l, name, args, false, out, me, n);
    case Receive(name, args, from, out) =>
      TakeQuiet(users, other, l, from, me, n);
      ForkQuiet(other, Take(users, other, l, from), name, args, true, out, me, n);
    case TakeOnly(from) => TakeQuiet(users, other, l, from, me, n);
    case Send(name, args, to) => SendQuiet(users, other, l, name, args, false, to, me, n);
    case SendReceive(name, args, from, to) =>
      TakeQuiet(users, other, l, from, me, n);
      SendQuiet(users, other, Take(users, other, l, from), name, args, true, to, me, n);
  }

  lemma {:induction false} LineQuiet(users: set<nat>, other: nat, l: Local, actions: seq<Action>, me: nat, n: nat)
    requires other != me
    ensures Quiet(l.pool, ActAll(users, other, l, actions).pool, me, n)
    decreases |actions|
  {
    if actions != [] {
      hide Mine, Act;
      ActQuiet(users, other, l, actions[0], me, n);
      LineQuiet(users, other, Act(users, other, l, actions[0]), actions[1..], me, n);
    }
  }

  // ---------- whole runs ----------

  /** The client stays: none of its lines runs `exit`. */
  ghost predicate Stays(requests: seq<Request>, fd: nat) {
    forall r | r in requests && r.Line? && r.fd == fd :: !Exits(r.actions)
  }

  lemma StaysOn(requests: seq<Request>, fd: nat)
    requires Stays(requests, fd) && requests != []
    ensures Stays(requests[1..], fd) && (requests[0].Line? && requests[0].fd == fd ==> !Exits(requests[0].actions))
  {
    forall q | q in requests[1..] ensures q in requests { }
    assert requests[0] in requests;
  }

  /** What the client asks for, in order. */
  function ActionsIn(requests: seq<Request>, fd: nat): seq<Action> {
    if requests == [] then []
    else
      (if requests[0].Line? && requests[0].fd == fd then requests[0].actions else []) + ActionsIn(requests[1..], fd)
  }

  /** The client's place in the server. */
  ghost predicate Follows(s: Server, fd: nat, pipes: Pipes, past: seq<Done>, n: nat) {
    && Sound(s) && fd in s.ids && fd in s.shells
    && InStep(LocalOf(s, fd), pipes, past, s.ids[fd], n)
  }

  /** A line of the client, up to where it may leave. */
  lemma OwnLine(s: Server, fd: nat, actions: seq<Action>, pipes: Pipes, past: seq<Done>, n: nat)
    returns (past': seq<Done>, pipes': Pipes)
    requires Follows(s, fd, pipes, past, n)
    ensures Follows(Execute(s, fd, actions), fd, pipes', past', n) && ActionsOf(past') == ActionsOf(past) + actions
    ensures Execute(s, fd, actions).ids == s.ids
  {
    hide Sound, InStep, ActAll, ActionsOf, StaysGone;
    ExecuteKeeps(s, fd, actions);
    past', pipes' := LineInStep(s.ids.Values, s.ids[fd], LocalOf(s, fd), pipes, past, actions, n);
  }

  lemma OtherId(s: Server, fd: nat, other: nat)
    requires Sound(s) && fd in s.ids && other in s.ids && fd != other
    ensures s.ids[fd] != s.ids[other]
  {
  }

  lemma EnterOther(s: Server, other: nat, me: nat, n: nat)
    requires other !in s.ids
    ensures Quiet(s.pool, Enter(s, other).pool, me, n)
  {
    hide Mine, RegistryText.LowestFree;
    NoteQuiet(s.pool, Enter(s, other).pool, Entered(RegistryText.LowestFree(s.ids.Values)), me, n);
  }

  lemma LeaveQuiet(s: Server, leaver: nat, me: nat, n: nat)
    requires leaver in s.ids
    ensures Quiet(s.pool, Leave(s, leaver).pool, me, n)
  {
    hide Mine;
    NoteQuiet(s.pool, Leave(s, leaver).pool, Left(s.ids[leaver]), me, n);
  }

  /** Others may open pipes meanwhile. */
  lemma FitsLater(l: Local, pool: Pool, pipes: Pipes, past: seq<Done>)
    requires Fits(l, pipes, past) && l.pool.issued <= pool.issued
    ensures Fits(Local(l.shell, pool), pipes, past)
  {
    hide SlotsFit, Written;
  }

  lemma NamesBelow(l: Local, pipes: Pipes, past: seq<Done>)
    requires Fits(l, pipes, past)
    ensures forall node | node in pipes :: pipes[node] < l.pool.issued
  {
  }

  lemma LeaveSent(s: Server, fd: nat)
    requires fd in s.ids
    ensures SentSince(s.pool, Leave(s, fd).pool, false)
  {
    hide SentSince, Sent;
    NoteSent(s.pool, Leave(s, fd).pool, Left(s.ids[fd]));
    SentWeaker(s.pool, Leave(s, fd).pool, false);
  }

  lemma EnterSent(s: Server, fd: nat)
    ensures SentSince(s.pool, Enter(s, fd).pool, false)
  {
    hide SentSince, Sent, RegistryText.LowestFree;
    NoteSent(s.pool, Enter(s, fd).pool, Entered(RegistryText.LowestFree(s.ids.Values)));
    SentWeaker(s.pool, Enter(s, fd).pool, false);
  }

  lemma StepSent(s: Server, r: Request)
    ensures SentSince(s.pool, Step(s, r).pool, false)
  {
    hide SentSince, Sent, Enter, Leave, ActAll, Exits;
    SentSame(s.pool);
    match r {
      case Connect(fd) => EnterSent(s, fd);
      case Line(fd, actions) =>
        if fd in s.ids && fd in s.shells {
          LineSent(s.ids.Values, s.ids[fd], LocalOf(s, fd), actions);
          LeaveSent(Execute(s, fd, actions), fd);
          if Exits(actions) {
            SentOn(s.pool, Execute(s, fd, actions).pool, Step(s, r).pool, false);
          }
        }
    }
  }

  lemma SentSame(pool: Pool)
    ensures SentSince(pool, pool, false)
  {
  }

  lemma OtherStep(s: Server, fd: nat, r: Request, pipes: Pipes, past: seq<Done>, n: nat)
    requires Follows(s, fd, pipes, past, n) && (r.Line? ==> r.fd != fd)
    ensures Follows(Step(s, r), fd, pipes, past, n) && Step(s, r).ids[fd] == s.ids[fd]
  {
    hide Sound, Fits, Proper, Told, Mine, Exits, ActAll, RegistryText.LowestFree, NewSession, Unsent, SentSince;
    var me, s' := s.ids[fd], Step(s, r);
    StepKeeps(s, r);
    assert Quiet(s.pool, s'.pool, me, n) by {
      match r
      case Connect(other) => if other !in s.ids { EnterOther(s, other, me, n); }
      case Line(other, actions) =>
        if other in s.ids && other in s.shells {
          OtherId(s, fd, other);
          LineQuiet(s.ids.Values, s.ids[other], LocalOf(s, other), actions, me, n);
          LeaveQuiet(Execute(s, other, actions), other, me, n);
        }
    }
    StepSent(s, r);
    NamesBelow(LocalOf(s, fd), pipes, past);
    UnsentLater(pipes, s.pool, s'.pool);
    FitsLater(LocalOf(s, fd), s'.pool, pipes, past);
  }

  function ActionsFor(r: Request, fd: nat): seq<Action> {
    if r.Line? && r.fd == fd then r.actions else []
  }

  lemma OneRequest(s: Server, fd: nat, r: Request, pipes: Pipes, past: seq<Done>, n: nat)
    returns (past': seq<Done>, pipes': Pipes)
    requires Follows(s, fd, pipes, past, n) && !(r.Line? && r.fd == fd && Exits(r.actions))
    ensures Follows(Step(s, r), fd, pipes', past', n) && ActionsOf(past') == ActionsOf(past) + ActionsFor(r, fd)
    ensures fd in s.ids && fd in Step(s, r).ids && Step(s, r).ids[fd] == s.ids[fd]
  {
    hide Sound, InStep, Execute, Exits, ActionsOf;
    if r.Line? && r.fd == fd {
      past', pipes' := OwnLine(s, fd, r.actions, pipes, past, n);
    } else {
      OtherStep(s, fd, r, pipes, past, n);
      past', pipes' := past, pipes;
    }
  }

  lemma {:induction false} RunFollows(s: Server, requests: seq<Request>, fd: nat, pipes: Pipes, past: seq<Done>, n: nat)
    returns (past': seq<Done>, pipes': Pipes)
    requires Follows(s, fd, pipes, past, n) && Stays(requests, fd)
    ensures Follows(Run(s, requests), fd, pipes', past', n) && ActionsOf(past') == ActionsOf(past) + ActionsIn(requests, fd)
    ensures fd in s.ids && fd in Run(s, requests).ids && Run(s, requests).ids[fd] == s.ids[fd]
    decreases |requests|
  {
    hide InStep, Sound, Step, Exits, ActionsOf;
    if requests == [] {
      return past, pipes;
    }
    hide Follows;
    StaysOn(requests, fd);
    var past1, pipes1 := OneRequest(s, fd, requests[0], pipes, past, n);
    past', pipes' := RunFollows(Step(s, requests[0]), requests[1..], fd, pipes1, past1, n);
    assert ActionsOf(past) + ActionsFor(requests[0], fd) + ActionsIn(requests[1..], fd)
        == ActionsOf(past) + (ActionsFor(requests[0], fd) + ActionsIn(requests[1..], fd));
  }

  // ---------- the arrival of a client ----------

  lemma FirstSlots(issued: nat)
    ensures SlotsFit(NewSession(BEFORE_FIRST_SESSION), map[], []) && NamesFit(map[], issued, [])
    ensures NewSession(BEFORE_FIRST_SESSION).taken == Terminal
  {
    NoMailboxes();
  }

  lemma EnteredShape(s: Server, fd: nat)
    requires Sound(s) && fd !in s.ids
    ensures var s1 := Enter(s, fd);
            && Sound(s1) && fd in s1.ids && fd in s1.shells && s1.shells[fd] == NewSession(BEFORE_FIRST_SESSION)
            && s1.pool.history[|s1.pool.history|..] == []
  {
    hide RegistryText.LowestFree, Sound;
    StepKeeps(s, Connect(fd));
  }

  lemma EntersInStep(s: Server, fd: nat)
    requires Sound(s) && fd !in s.ids
    ensures Follows(Enter(s, fd), fd, map[], [], |Enter(s, fd).pool.history|)
  {
    hide Sound, Enter, NewSession, SlotsFit, NamesFit, Unsent;
    EnteredShape(s, fd);
    SoundUnsent(Enter(s, fd));
    FirstSlots(Enter(s, fd).pool.issued);
  }

  lemma SoundUnsent(s: Server)
    requires Sound(s)
    ensures Unsent(map[], s.pool)
  {
    assert Kinds(s);
    hide KindFits, Sent, Read, Abandoned, Gone;
  }

  // ---------- the pipes of a client are its own ----------

  lemma {:induction false} MineIndex(h: seq<Event>, me: nat, e: Event) returns (i: nat)
    requires e in Mine(h, me)
    ensures i < |h| && h[i] == e
  {
    var before := h[..|h| - 1];
    if e in Mine(before, me) {
      i := MineIndex(before, me, e);
    } else {
      i := |h| - 1;
    }
  }

  /** Some command of the client has written to each of its nodes. */
  lemma {:induction false} WriterTold(me: nat, pipes: Pipes, done: seq<Done>, node: Node) returns (e: Event)
    requires Written(done, node) && node in pipes
    ensures e in Told(me, pipes, done) && e.Forked? && e.user == me && e.output == Pipe(pipes[node])
  {
    hide Target, Reads, Written;
    assert done != [] by { if done == [] { NothingWritten(done, node); } }
    var past, d := done[..|done| - 1], done[|done| - 1];
    assert done == past + [d];
    WrittenStep(past, d, node);
    if Written(past, node) {
      e := WriterTold(me, pipes, past, node);
    } else {
      e := TargetWriter(me, pipes, past, d, node);
      assert e in StepEvents(me, pipes, past, d);
    }
  }

  lemma TargetWriter(me: nat, pipes: Pipes, past: seq<Done>, d: Done, node: Node) returns (e: Event)
    requires Target(past, d.action) == Some(node) && node in pipes
    ensures e in StepEvents(me, pipes, past, d) && e.Forked? && e.user == me && e.output == Pipe(pipes[node])
  {
    hide Reads;
    e := CommandEvents(me, pipes, past, d)[0];
  }

  lemma {:induction false} StaysOnline(h: seq<Event>, i: nat, j: nat, me: nat)
    requires i <= j <= |h| && me in Online(h[..i]) && forall k | i <= k < j :: h[k] != Left(me)
    ensures me in Online(h[..j])
    decreases j
  {
    if i < j {
      StaysOnline(h, i, j - 1, me);
      assert h[..j][..j - 1] == h[..j - 1];
    }
  }

  /** Nobody enters under an id that is in use. */
  lemma EntersFresh(h: seq<Event>, i: nat, j: nat, me: nat)
    requires Legal(h) && i < j < |h| && h[i].Forked? && h[i].user == me && h[j] == Entered(me)
    ensures exists k :: i < k < j && h[k] == Left(me)
  {
    hide Online;
    assert MayFollow(h[..i], h[i]) && MayFollow(h[..j], h[j]);
    if forall k | i < k < j :: h[k] != Left(me) {
      StaysOnline(h, i, j, me);
      assert false;
    }
  }

  lemma AloneNode(h: seq<Event>, n: nat, me: nat, p: nat, w: nat, i: nat)
    requires Legal(h) && Unmixed(h) && 1 <= n <= |h| && h[n - 1] == Entered(me) && p !in Sent(h)
    requires n <= w < |h| && h[w].Forked? && h[w].user == me && h[w].output == Pipe(p)
    requires i < |h| && h[i].Forked? && (h[i].output == Pipe(p) || h[i].input == Pipe(p))
    ensures n <= i && h[i].user == me
  {
    hide Legal, Unmixed, Sent;
    if h[i].output == Pipe(p) {
      AloneWriter(h, n, me, p, w, i);
    } else {
      if p in Sent(h[..i]) { SentForever(h, i, p); }
      var k := ReadsOwnWrites(h, i, p);
      AloneWriter(h, n, me, p, w, k);
    }
  }

  lemma AloneWriter(h: seq<Event>, n: nat, me: nat, p: nat, w: nat, i: nat)
    requires Legal(h) && Unmixed(h) && 1 <= n <= |h| && h[n - 1] == Entered(me)
    requires n <= w < |h| && h[w].Forked? && h[w].user == me && h[w].output == Pipe(p)
    requires i < |h| && h[i].Forked? && h[i].output == Pipe(p)
    ensures n <= i && h[i].user == me
  {
    hide Legal, Unmixed;
    if i < w {
      OneWriter(h, i, w);
      if i < n - 1 { EntersFresh(h, i, n - 1, me); }
    } else if w < i {
      OneWriter(h, w, i);
    }
  }

  lemma AreAlone(h: seq<Event>, n: nat, me: nat, pipes: Pipes, done: seq<Done>)
    requires Legal(h) && Unmixed(h) && 1 <= n <= |h| && h[n - 1] == Entered(me)
    requires Mine(h[n..], me) == Told(me, pipes, done)
    requires forall node | node in pipes :: Written(done, node) && pipes[node] !in Sent(h)
    ensures Alone(h, n, me, pipes)
  {
    hide Legal, Unmixed, Sent, Mine, Told, Written;
    forall node, i | node in pipes && 0 <= i < |h| && Uses(h[i], pipes[node]) ensures n <= i && h[i].user == me {
      var e := WriterTold(me, pipes, done, node);
      var w := MineIndex(h[n..], me, e);
      assert h[n..][w] == h[n + w];
      AloneNode(h, n, me, pipes[node], n + w, i);
    }
  }

  // ---------- the results ----------

  lemma InStepIsWired(l: Local, pipes: Pipes, past: seq<Done>, me: nat, n: nat, pool: Pool)
    requires InStep(l, pipes, past, me, n) && Quiet(l.pool, pool, me, n) && SentSince(l.pool, pool, false)
    requires Legal(pool.history) && Unmixed(pool.history)
    requires 1 <= n && l.pool.history[n - 1] == Entered(me) && l.pool.history <= pool.history
    ensures Wired(pool.history, n, me, ActionsOf(past))
  {
    NodesOf(l, pipes, past);
    NamesBelow(l, pipes, past);
    UnsentLater(pipes, l.pool, pool);
    hide Fits, Mine, Told, Written, ActionsOf, Legal, Unmixed, Sent, Alone, SentSince;
    AreAlone(pool.history, n, me, pipes, past);
  }

  /** Every command of a client, from its arrival to the end of any of its lines, be it the line that runs
      `exit`: whatever happened before it came and whatever others do in between, what the client does is
      exactly what the graph of its own commands says, over pipes that no other client writes to or reads. */
  lemma ClientIsWired(before: seq<Request>, fd: nat, requests: seq<Request>, line: seq<Action>)
    requires Stays(requests, fd)
    ensures fd !in Run(EMPTY_SERVER, before).ids ==>
              var s1 := Enter(Run(EMPTY_SERVER, before), fd);
              var s, me, n := Run(Run(s1, requests), [Line(fd, line)]), s1.ids[fd], |s1.pool.history|;
              n <= |s.pool.history| && Wired(s.pool.history, n, me, ActionsIn(requests, fd) + line)
  {
    RunIsLegal(before);
    var s0 := Run(EMPTY_SERVER, before);
    if fd in s0.ids { return; }
    hide Sound, Legal, Unmixed, Waiting, Online, Wired, Mine, InStep, Execute, Exits, Stays, Enter;
    EntersInStep(s0, fd);
    var s1 := Enter(s0, fd);
    var n := |s1.pool.history|;
    EnteredLast(s0, fd);
    var past, pipes := RunFollows(s1, requests, fd, map[], [], n);
    Extended(s1, requests);
    AllUnmixed(before, fd, requests, line);
    LineIsWired(Run(s1, requests), fd, line, pipes, past, n);
    assert [] + ActionsIn(requests, fd) == ActionsIn(requests, fd);
  }

  lemma EnteredLast(s: Server, fd: nat)
    ensures var s1 := Enter(s, fd);
            && |s1.pool.history| > 0 && fd in s1.ids
            && s1.pool.history[|s1.pool.history| - 1] == Entered(s1.ids[fd])
  {
  }

  /** The run before, the arrival, the requests and the line are one run of the server. */
  lemma AllUnmixed(before: seq<Request>, fd: nat, requests: seq<Request>, line: seq<Action>)
    requires fd !in Run(EMPTY_SERVER, before).ids
    ensures var s1 := Enter(Run(EMPTY_SERVER, before), fd);
            Unmixed(Run(Run(s1, requests), [Line(fd, line)]).pool.history)
  {
    hide Unmixed, Enter, Execute;
    var s0 := Run(EMPTY_SERVER, before);
    RunAppend(EMPTY_SERVER, before, [Connect(fd)]);
    assert [Connect(fd)][1..] == [];
    assert Run(s0, [Connect(fd)]) == Enter(s0, fd);
    RunAppend(EMPTY_SERVER, before + [Connect(fd)], requests);
    RunAppend(EMPTY_SERVER, before + [Connect(fd)] + requests, [Line(fd, line)]);
    UserPipeWriters.RunIsUnmixed(before + [Connect(fd)] + requests + [Line(fd, line)]);
  }

  lemma LineIsWired(s: Server, fd: nat, line: seq<Action>, pipes: Pipes, past: seq<Done>, n: nat)
    requires Follows(s, fd, pipes, past, n)
    requires 1 <= n <= |s.pool.history| && s.pool.history[n - 1] == Entered(s.ids[fd])
    requires Unmixed(Run(s, [Line(fd, line)]).pool.history)
    ensures fd in s.ids
    ensures var h := Run(s, [Line(fd, line)]).pool.history;
            n <= |h| && Wired(h, n, s.ids[fd], ActionsOf(past) + line)
  {
    hide Sound, Legal, Unmixed, Wired, Mine, InStep, Exits, ActAll, SentSince, StaysGone;
    var past', pipes' := OwnLine(s, fd, line, pipes, past, n);
    var s', me := Execute(s, fd, line), s.ids[fd];
    var last := Run(s, [Line(fd, line)]);
    assert [Line(fd, line)][1..] == [];
    assert last == Step(s, Line(fd, line));
    LeaveQuiet(s', fd, me, n);
    LeaveSent(s', fd);
    SentSame(s'.pool);
    StepKeeps(s, Line(fd, line));
    SoundLegal(last);
    LineSent(s.ids.Values, me, LocalOf(s, fd), line);
    Continues(s.pool, s'.pool);
    Continues(s'.pool, last.pool);
    InStepIsWired(LocalOf(s', fd), pipes', past', me, n, last.pool);
  }

  lemma Continues(pool: Pool, pool': Pool)
    requires SentSince(pool, pool', false)
    ensures pool.history <= pool'.history
  {
  }

  lemma SoundLegal(s: Server)
    requires Sound(s)
    ensures Legal(s.pool.history)
  {
  }

  /** Nothing that is in a history is ever taken back. */
  lemma {:induction false} Extended(s: Server, requests: seq<Request>)
    ensures s.pool.history <= Run(s, requests).pool.history
    decreases |requests|
  {
    if requests != [] {
      StepSent(s, requests[0]);
      hide Step;
      Extended(Step(s, requests[0]), requests[1..]);
    }
  }

  // ---------- every client of every run ----------

  lemma {:induction false} RunAppend(s: Server, a: seq<Request>, b: seq<Request>)
    ensures Run(s, a + b) == Run(Run(s, a), b)
    decreases |a|
  {
    hide Step;
    if a == [] {
      assert a + b == b;
    } else {
      assert (a + b)[1..] == a[1..] + b;
      RunAppend(Step(s, a[0]), a[1..], b);
    }
  }

  lemma RunLast(requests: seq<Request>)
    requires requests != []
    ensures Run(EMPTY_SERVER, requests) == Step(Run(EMPTY_SERVER, requests[..|requests| - 1]), requests[|requests| - 1])
  {
    hide Step;
    var rest, last := requests[..|requests| - 1], requests[|requests| - 1];
    assert requests == rest + [last];
    RunAppend(EMPTY_SERVER, rest, [last]);
    assert [last][1..] == [];
  }

  /** A connected client has arrived at some point and has not run `exit` since. */
  lemma {:induction false} Arrival(requests: seq<Request>, fd: nat) returns (j: nat)
    requires fd in Run(EMPTY_SERVER, requests).ids
    ensures j < |requests| && requests[j] == Connect(fd) && fd !in Run(EMPTY_SERVER, requests[..j]).ids
    ensures Stays(requests[j + 1..], fd)
    decreases |requests|
  {
    hide Exits, ActAll, RegistryText.LowestFree, Run;
    NobodyYet(fd);
    assert requests != [];
    var rest, last := requests[..|requests| - 1], requests[|requests| - 1];
    RunLast(requests);
    if fd in Run(EMPTY_SERVER, rest).ids {
      j := Arrival(rest, fd);
      ReachableShells(rest);
      assert requests[..j] == rest[..j] && requests[j + 1..] == rest[j + 1..] + [last];
      StillConnected(Run(EMPTY_SERVER, rest), last, fd);
      StaysAppend(rest[j + 1..], last, fd);
    } else {
      j := |requests| - 1;
      assert requests[..j] == rest && requests[j + 1..] == [];
    }
  }

  lemma ReachableShells(requests: seq<Request>)
    ensures Run(EMPTY_SERVER, requests).shells.Keys == Run(EMPTY_SERVER, requests).ids.Keys
  {
    RunIsLegal(requests);
    SoundShells(Run(EMPTY_SERVER, requests));
  }

  lemma StillConnected(s: Server, r: Request, fd: nat)
    requires fd in s.ids && fd in Step(s, r).ids && s.shells.Keys == s.ids.Keys
    ensures r.Line? && r.fd == fd ==> !Exits(r.actions)
  {
    hide Exits, ActAll, RegistryText.LowestFree;
  }

  lemma StaysAppend(requests: seq<Request>, r: Request, fd: nat)
    requires Stays(requests, fd) && (r.Line? && r.fd == fd ==> !Exits(r.actions))
    ensures Stays(requests + [r], fd)
  {
    hide Exits;
  }

  lemma NobodyYet(fd: nat)
    ensures fd !in Run(EMPTY_SERVER, []).ids
  {
  }

  /** In every run, every line of every connected client does, together with all the client did since it
      arrived, exactly what the graph says. */
  lemma EveryLineIsWired(requests: seq<Request>, fd: nat, line: seq<Action>) returns (j: nat)
    requires fd in Run(EMPTY_SERVER, requests).ids
    ensures j < |requests| && requests[j] == Connect(fd) && fd !in Run(EMPTY_SERVER, requests[..j]).ids
    ensures var s1 := Run(EMPTY_SERVER, requests[..j + 1]);
            var h, n := Run(EMPTY_SERVER, requests + [Line(fd, line)]).pool.history, |s1.pool.history|;
            && fd in s1.ids && n <= |h|
            && Wired(h, n, s1.ids[fd], ActionsIn(requests[j + 1..], fd) + line)
  {
    hide Run, Wired, Mine, Execute, ActionsIn, Enter, Stays;
    j := Arrival(requests, fd);
    var before, after := requests[..j], requests[j + 1..];
    ClientIsWired(before, fd, after, line);
    RunLast(requests[..j + 1]);
    assert requests[..j + 1][..j] == before;
    assert requests[..j + 1] + after == requests;
    RunAppend(EMPTY_SERVER, requests[..j + 1], after);
    RunAppend(EMPTY_SERVER, requests, [Line(fd, line)]);
    EnterHas(Run(EMPTY_SERVER, before), fd);
  }

  lemma EnterHas(s: Server, fd: nat)
    ensures fd in Enter(s, fd).ids
  {
  }
}
