/** The meaning of a client's session with user pipes as a graph: what each of its commands reads and writes,
    told from what the client did before and how its user pipes were answered, without any slot or counter. */
module UserPipeGraph {
  import opened Text
  import opened UserPipeHistory
  import opened UserPipes
  import PipeGraph

  type Node = PipeGraph.Node

  /** How a `<i` was answered, and how a `>j` was. */
  datatype Taking = NotTaking | NoSender | NoneWaiting | Took(pipe: nat)

  datatype Opening = NotOpening | NoReceiver | Busy | Opened(pipe: nat)

  datatype Done = Done(action: Action, taking: Taking, opening: Opening)

  predicate Receives(a: Action) {
    a.Receive? || a.TakeOnly? || a.SendReceive?
  }

  predicate Sends(a: Action) {
    a.Send? || a.SendReceive?
  }

  ghost predicate Proper(done: seq<Done>) {
    forall k | 0 <= k < |done| ::
      (done[k].taking.NotTaking? <==> !Receives(done[k].action)) && (done[k].opening.NotOpening? <==> !Sends(done[k].action))
  }

  function ActionsOf(done: seq<Done>): seq<Action> {
    if done == [] then [] else ActionsOf(done[..|done| - 1]) + [done[|done| - 1].action]
  }

  // ---------- sessions and nodes ----------

  predicate FeedsNext(a: Action) {
    (a.Plain? || a.Receive?) && a.out.ToNext?
  }

  /** Everything but a command that feeds the next one ends its session; a line that is given up does not. */
  predicate Ends(a: Action) {
    !FeedsNext(a) && !a.TakeOnly?
  }

  /** A command that takes its input from the pipeline or the mailbox, not from a user. */
  predicate ReadsSession(a: Action) {
    a.Plain? || a.Send?
  }

  /** The session that is open after these steps. */
  function Session(past: seq<Done>): nat {
    if past == [] then 1
    else Session(past[..|past| - 1]) + (if Ends(past[|past| - 1].action) then 1 else 0)
  }

  /** The link or the mailbox that the next step writes to if it is this action. */
  function Target(past: seq<Done>, a: Action): Option<Node> {
    if !(a.Plain? || a.Receive?) then None
    else match a.out
      case ToNext => Some(PipeGraph.Link(|past|))
      case ToSession(ahead, _) => Some(PipeGraph.Mailbox(Session(past) + ahead))
      case _ => None
  }

  ghost predicate Written(past: seq<Done>, node: Node) {
    exists j | 0 <= j < |past| :: Target(past[..j], past[j].action) == Some(node)
  }

  /** Step j is in the session that is still open. */
  ghost predicate InSession(past: seq<Done>, j: int) {
    0 <= j < |past| && forall i | j <= i < |past| :: !Ends(past[i].action)
  }

  /** An earlier command of the session has taken what was in its mailbox. */
  ghost predicate MailTaken(past: seq<Done>) {
    exists j :: InSession(past, j) && ReadsSession(past[j].action)
  }

  /** The link from the step just before, lines given up aside. */
  function Before(past: seq<Done>): Option<Node> {
    if past == [] then None
    else
      var last := past[|past| - 1].action;
      if last.TakeOnly? then Before(past[..|past| - 1])
      else if FeedsNext(last) then Some(PipeGraph.Link(|past| - 1))
      else None
  }

  /** A user pipe that was taken by a line then given up, and that no step since has read or let go. */
  function Held(past: seq<Done>): Option<nat> {
    if past == [] then None
    else
      var last, rest := past[|past| - 1], past[..|past| - 1];
      match last.action
      case TakeOnly(_) =>
        (match last.taking
         case Took(p) => Some(p)
         case NoSender => Held(rest)
         case _ => None)
      case Plain(_, _, out) => if out.ToNext? then Held(rest) else None
      case _ => None
  }

  // ---------- what a step reads and writes ----------

  datatype Source = Inherited | Nowhere | FromNode(node: Node) | FromUser(pipe: nat)

  ghost function Reads(past: seq<Done>, d: Done): Source {
    if Receives(d.action) then
      match d.taking
      case Took(p) => FromUser(p)
      case NoSender => if Held(past).Some? then FromUser(Held(past).value) else Nowhere
      case _ => Nowhere
    else if !MailTaken(past) && Written(past, PipeGraph.Mailbox(Session(past))) then
      FromNode(PipeGraph.Mailbox(Session(past)))
    else if Before(past).Some? then FromNode(Before(past).value)
    else Inherited
  }

  /** For each node, the pipe of the server that it is. */
  type Pipes = map<Node, nat>

  function NodeStream(pipes: Pipes, node: Option<Node>): Stream {
    if node.Some? && node.value in pipes then Pipe(pipes[node.value]) else Terminal
  }

  function InputStream(pipes: Pipes, source: Source): Stream {
    match source
    case Inherited => Terminal
    case Nowhere => Null
    case FromNode(node) => NodeStream(pipes, Some(node))
    case FromUser(p) => Pipe(p)
  }

  function OutputStream(pipes: Pipes, past: seq<Done>, d: Done): Stream {
    if Sends(d.action) then (if d.opening.Opened? then Pipe(d.opening.pipe) else Null)
    else if (d.action.Plain? || d.action.Receive?) && d.action.out.ToFile? then File(d.action.out.file)
    else NodeStream(pipes, Target(past, d.action))
  }

  function ErrorStream(pipes: Pipes, past: seq<Done>, d: Done): Stream {
    if (d.action.Plain? || d.action.Receive?) && d.action.out.ToSession? && d.action.out.withErr then
      OutputStream(pipes, past, d)
    else Terminal
  }

  // ---------- the events of the client ----------

  function TakeEvents(me: nat, d: Done): seq<Event> {
    if !Receives(d.action) then []
    else match d.taking
      case NotTaking => []
      case NoSender => [NoUser(me, d.action.from)]
      case NoneWaiting => [Missing((d.action.from, me))]
      case Took(p) => [Loaded(p, (d.action.from, me))]
  }

  function OpenEvents(me: nat, d: Done): seq<Event> {
    if !Sends(d.action) then []
    else match d.opening
      case NotOpening => []
      case NoReceiver => [NoUser(me, d.action.to)]
      case Busy => [Refused((me, d.action.to))]
      case Opened(p) => [Created(p, (me, d.action.to))]
  }

  /** The command itself, with the streams of the graph. */
  ghost function CommandEvents(me: nat, pipes: Pipes, past: seq<Done>, d: Done): seq<Event> {
    if d.action.TakeOnly? then []
    else if d.action.Own? then [Ran(me, d.action.name, d.action.args)]
    else [Forked(me, d.action.name, d.action.args, InputStream(pipes, Reads(past, d)),
                 OutputStream(pipes, past, d), ErrorStream(pipes, past, d))]
  }

  ghost function StepEvents(me: nat, pipes: Pipes, past: seq<Done>, d: Done): seq<Event> {
    TakeEvents(me, d) + OpenEvents(me, d) + CommandEvents(me, pipes, past, d)
  }

  /** Everything the client's steps do, in order. */
  ghost function Told(me: nat, pipes: Pipes, done: seq<Done>): seq<Event> {
    if done == [] then []
    else
      var past := done[..|done| - 1];
      Told(me, pipes, past) + StepEvents(me, pipes, past, done[|done| - 1])
  }

  // ---------- the client in the history of the server ----------

  predicate Tells(e: Event, me: nat) {
    match e
    case Created(_, key) => key.0 == me
    case Refused(key) => key.0 == me
    case Loaded(_, key) => key.1 == me
    case Missing(key) => key.1 == me
    case NoUser(user, _) => user == me
    case Ran(user, _, _) => user == me
    case Forked(user, _, _, _, _, _) => user == me
    case _ => false
  }

  /** What user `me` did: its commands, and the answers to its user pipes. */
  function Mine(h: seq<Event>, me: nat): seq<Event> {
    if h == [] then []
    else Mine(h[..|h| - 1], me) + (if Tells(h[|h| - 1], me) then [h[|h| - 1]] else [])
  }

  /** A command that writes to the pipe or reads it. */
  predicate Uses(e: Event, p: nat) {
    e.Forked? && (e.output == Pipe(p) || e.input == Pipe(p))
  }

  /** No command of another user, and none from before event n, ever writes to or reads one of these pipes. */
  ghost predicate Alone(h: seq<Event>, n: nat, me: nat, pipes: Pipes) {
    forall node, i | node in pipes && 0 <= i < |h| && Uses(h[i], pipes[node]) :: n <= i && h[i].user == me
  }

  /** What user `me` did since event n is exactly what these actions do according to the graph: under some answers
      to its user pipes, with one pipe of the server for each node, no two the same and all of them its own. */
  ghost predicate Wired(h: seq<Event>, n: nat, me: nat, actions: seq<Action>)
    requires n <= |h|
  {
    exists done: seq<Done>, pipes: Pipes ::
      && Proper(done) && ActionsOf(done) == actions
      && Injective(pipes) && (forall node :: node in pipes <==> Written(done, node))
      && Mine(h[n..], me) == Told(me, pipes, done)
      && Alone(h, n, me, pipes)
  }

  // ---------- one more step ----------

  lemma FrontOf(past: seq<Done>, d: Done)
    ensures (past + [d])[..|past + [d]| - 1] == past && (past + [d])[|past|] == d
  {
  }

  lemma WrittenStep(past: seq<Done>, d: Done, node: Node)
    ensures Written(past + [d], node) <==> Written(past, node) || Target(past, d.action) == Some(node)
  {
    hide Target;
    var all := past + [d];
    assert all[..|past|] == past && all[|past|] == d;
    if j :| 0 <= j < |past| && Target(past[..j], past[j].action) == Some(node) {
      assert all[..j] == past[..j] && all[j] == past[j];
    }
    if j :| 0 <= j < |all| && Target(all[..j], all[j].action) == Some(node) && j < |past| {
      assert all[..j] == past[..j] && all[j] == past[j];
    }
  }

  lemma MailStep(past: seq<Done>, d: Done)
    ensures MailTaken(past + [d]) <==> !Ends(d.action) && (MailTaken(past) || ReadsSession(d.action))
  {
    hide Ends, ReadsSession;
    var all := past + [d];
    assert all[|past|] == d;
    if !Ends(d.action) && MailTaken(past) {
      var j :| InSession(past, j) && ReadsSession(past[j].action);
      assert all[j] == past[j] && InSession(all, j);
    }
    if !Ends(d.action) && ReadsSession(d.action) {
      assert InSession(all, |past|);
    }
    if MailTaken(all) {
      var j :| InSession(all, j) && ReadsSession(all[j].action);
      if j < |past| {
        forall i | j <= i < |past| ensures !Ends(past[i].action) { assert all[i] == past[i]; }
        assert all[j] == past[j] && InSession(past, j);
      }
    }
  }

  lemma {:induction false} BeforeWritten(past: seq<Done>)
    requires Before(past).Some?
    ensures Written(past, Before(past).value)
  {
    var rest, last := past[..|past| - 1], past[|past| - 1];
    assert past == rest + [last];
    WrittenStep(rest, last, Before(past).value);
    if last.action.TakeOnly? {
      BeforeWritten(rest);
    }
  }

  /** Whatever a step reads from the client's own pipes has been written. */
  lemma ReadsWritten(past: seq<Done>, d: Done)
    requires Reads(past, d).FromNode?
    ensures Written(past, Reads(past, d).node)
  {
    if Before(past).Some? { BeforeWritten(past); }
  }

  // ---------- the graph in other words ----------

  /** Step j took p in a line then given up, and every step since was the middle of a pipeline or another such
      line naming a user that there is not. */
  ghost predicate HeldSince(past: seq<Done>, j: int, p: nat) {
    && 0 <= j < |past| && past[j].action.TakeOnly? && past[j].taking == Took(p)
    && forall i | j < i < |past| ::
         || (past[i].action.Plain? && past[i].action.out.ToNext?)
         || (past[i].action.TakeOnly? && past[i].taking.NoSender?)
  }

  lemma {:induction false} HeldMeaning(past: seq<Done>, p: nat)
    ensures Held(past) == Some(p) <==> exists j :: HeldSince(past, j, p)
  {
    if past != [] {
      var rest, n := past[..|past| - 1], |past| - 1;
      HeldMeaning(rest, p);
      var keeps := (past[n].action.Plain? && past[n].action.out.ToNext?)
                   || (past[n].action.TakeOnly? && past[n].taking.NoSender?);
      forall j | 0 <= j < n ensures HeldSince(past, j, p) <==> (HeldSince(rest, j, p) && keeps) {
        assert forall i | 0 <= i < n :: past[i] == rest[i];
      }
      if Held(past) == Some(p) {
        if past[n].action.TakeOnly? && past[n].taking == Took(p) {
          assert HeldSince(past, n, p);
        } else {
          var j :| HeldSince(rest, j, p);
          assert HeldSince(past, j, p);
        }
      }
    }
  }

  /** In `a <i | b` and `a <i | b >j`, b reads the link from a exactly when no mailbox was waiting for a
      command of the session to take it. */
  lemma DisplacedInGraph(past: seq<Done>, a: Done, b: Done)
    requires a.action.Receive? && a.action.out.ToNext? && ReadsSession(b.action)
    ensures var mail := PipeGraph.Mailbox(Session(past));
            && (Reads(past + [a], b) == FromNode(PipeGraph.Link(|past|)) <==> MailTaken(past) || !Written(past, mail))
            && (!MailTaken(past) && Written(past, mail) ==> Reads(past + [a], b) == FromNode(mail))
  {
    hide MailTaken, Written;
    FrontOf(past, a);
    MailStep(past, a);
    WrittenStep(past, a, PipeGraph.Mailbox(Session(past)));
  }

  // ---------- without user pipes ----------

  predicate IsPlain(a: Action) {
    a.Own? || a.Plain?
  }

  function StepOf(a: Action): PipeGraph.Step
    requires IsPlain(a)
  {
    if a.Own? then PipeGraph.Builtin(a.name, a.args) else PipeGraph.Fork(a.name, a.args, a.out)
  }

  /** The steps of a stand-alone shell that does the same. */
  ghost predicate Same(past: seq<Done>, steps: seq<PipeGraph.Step>) {
    |past| <= |steps| && forall k | 0 <= k < |past| :: IsPlain(past[k].action) && steps[k] == StepOf(past[k].action)
  }

  lemma {:induction false} SameSession(past: seq<Done>, steps: seq<PipeGraph.Step>)
    requires Same(past, steps)
    ensures Session(past) == PipeGraph.Session(steps, |past|)
  {
    if past != [] {
      SameSession(past[..|past| - 1], steps);
    }
  }

  lemma SameTarget(past: seq<Done>, d: Done, steps: seq<PipeGraph.Step>)
    requires Same(past, steps) && |past| < |steps| && IsPlain(d.action) && steps[|past|] == StepOf(d.action)
    ensures Target(past, d.action) == PipeGraph.Writes(steps, |past|)
  {
    SameSession(past, steps);
  }

  lemma {:induction false} SameWritten(past: seq<Done>, steps: seq<PipeGraph.Step>, node: Node)
    requires Same(past, steps)
    ensures Written(past, node) <==> node in PipeGraph.Written(steps, |past|)
  {
    hide Written, Target, PipeGraph.Writes;
    if past == [] {
      NothingWritten(past, node);
    } else {
      var rest, last := past[..|past| - 1], past[|past| - 1];
      assert past == rest + [last];
      SameWritten(rest, steps, node);
      SameTarget(rest, last, steps);
      WrittenStep(rest, last, node);
    }
  }

  lemma NothingWritten(past: seq<Done>, node: Node)
    requires past == []
    ensures !Written(past, node)
  {
  }

  lemma SameHead(past: seq<Done>, steps: seq<PipeGraph.Step>)
    requires Same(past, steps)
    ensures MailTaken(past) <==> !PipeGraph.Head(steps, |past|)
    ensures Before(past) == if PipeGraph.Head(steps, |past|) then None else Some(PipeGraph.Link(|past| - 1))
  {
    var n := |past|;
    if n > 0 {
      assert IsPlain(past[n - 1].action) && steps[n - 1] == StepOf(past[n - 1].action);
      if FeedsNext(past[n - 1].action) {
        assert InSession(past, n - 1);
      }
    }
  }

  /** For a client without user pipes the graph is the one of the stand-alone shell. */
  lemma SameGraph(past: seq<Done>, d: Done, steps: seq<PipeGraph.Step>)
    requires Same(past + [d], steps)
    ensures d.action.Plain? ==> Reads(past, d) == match PipeGraph.Reads(steps, |past|)
                                                  case None => Inherited
                                                  case Some(node) => FromNode(node)
    ensures Target(past, d.action) == PipeGraph.Writes(steps, |past|)
  {
    forall k | 0 <= k < |past| ensures (past + [d])[k] == past[k] { }
    assert (past + [d])[|past|] == d;
    SameSession(past, steps);
    SameHead(past, steps);
    SameTarget(past, d, steps);
    SameWritten(past, steps, PipeGraph.Mailbox(Session(past)));
    hide Written, MailTaken, Before;
  }
}
