/** The meaning of a shell session as a graph: which command reads the pipe that which command writes,
    told from the list of executed commands alone, without any pipe, slot or counter. */
module PipeGraph {
  import opened Text

  type Pos = n: int | n >= 1 witness 1

  datatype Output =
    | ToNext                                  // `|`
    | ToFile(file: string)                    // `> file`
    | ToConsole
    | ToSession(ahead: Pos, withErr: bool)    // `|N`, `!N`

  /** One executed command. Everything but a fork that feeds the next command ends its session. */
  datatype Step =
    | Builtin(name: string, args: seq<string>)
    | Fork(name: string, args: seq<string>, out: Output)
  {
    predicate EndsSession() {
      Builtin? || !out.ToNext?
    }
  }

  /** A pipe, named by what it is for: the link from a step to the step after it, or the mailbox that
      holds whatever earlier sessions sent ahead to a session. */
  datatype Node = Link(step: nat) | Mailbox(session: nat)

  /** The session in which step k runs (or would run). */
  function Session(steps: seq<Step>, k: nat): (t: nat)
    requires k <= |steps|
    ensures t >= 1
  {
    if k == 0 then 1 else Session(steps, k - 1) + (if steps[k - 1].EndsSession() then 1 else 0)
  }

  predicate Head(steps: seq<Step>, k: nat)
    requires k <= |steps|
  {
    k == 0 || steps[k - 1].EndsSession()
  }

  /** The pipe that step k writes to. */
  function Writes(steps: seq<Step>, k: nat): Option<Node>
    requires k < |steps|
  {
    if steps[k].Builtin? then None
    else match steps[k].out
      case ToNext => Some(Link(k))
      case ToSession(ahead, _) => Some(Mailbox(Session(steps, k) + ahead))
      case _ => None
  }

  function Only(node: Option<Node>): set<Node> {
    if node.Some? then {node.value} else {}
  }

  /** The pipes that have a writer before step k. */
  function Written(steps: seq<Step>, k: nat): set<Node>
    requires k <= |steps|
  {
    if k == 0 then {} else Written(steps, k - 1) + Only(Writes(steps, k - 1))
  }

  /** The pipe that step k reads: the head of a session reads the session's mailbox, if anyone wrote to
      it; every other step reads the link from the step before it. */
  function Reads(steps: seq<Step>, k: nat): Option<Node>
    requires k <= |steps|
  {
    if !Head(steps, k) then Some(Link(k - 1))
    else if Mailbox(Session(steps, k)) in Written(steps, k) then Some(Mailbox(Session(steps, k)))
    else None
  }

  lemma {:induction false} WrittenMeaning(steps: seq<Step>, k: nat, node: Node)
    requires k <= |steps|
    ensures node in Written(steps, k) <==> exists s: nat | s < k :: Writes(steps, s) == Some(node)
  {
    if k > 0 {
      WrittenMeaning(steps, k - 1, node);
      if s: nat :| s < k && Writes(steps, s) == Some(node) {
        assert s == k - 1 || (s < k - 1 && Writes(steps, s) == Some(node));
      }
    }
  }

  lemma {:induction false} SessionMonotone(steps: seq<Step>, a: nat, b: nat)
    requires a <= b <= |steps|
    ensures Session(steps, a) <= Session(steps, b)
  {
    if a < b {
      SessionMonotone(steps, a, b - 1);
    }
  }

  /** The link that starts at a step is new when the step runs. */
  lemma {:induction false} FreshLink(steps: seq<Step>, k: nat, later: nat)
    requires k <= later && k <= |steps|
    ensures Link(later) !in Written(steps, k)
  {
    if k > 0 {
      FreshLink(steps, k - 1, later);
    }
  }

  /** Whatever a step reads has been written by an earlier step. */
  lemma ReadsWritten(steps: seq<Step>, k: nat)
    requires k <= |steps| && Reads(steps, k).Some?
    ensures Reads(steps, k).value in Written(steps, k)
  {
    if !Head(steps, k) {
      assert Writes(steps, k - 1) == Some(Link(k - 1));
    }
  }

  /** No pipe is read by two steps. */
  lemma OneReader(steps: seq<Step>, a: nat, b: nat)
    requires a < b <= |steps| && Reads(steps, a).Some?
    ensures Reads(steps, a) != Reads(steps, b)
  {
    if Head(steps, a) && Head(steps, b) {
      SessionMonotone(steps, a, b - 1);
    }
  }

  /** A link has exactly one writer; a mailbox is written by exactly the last steps of the sessions that
      sent ahead to it, all of them before the session opens. */
  lemma Writers(steps: seq<Step>, s: nat, k: nat, t: nat)
    requires s < |steps| && k < |steps|
    ensures Writes(steps, s) == Some(Link(k)) ==> s == k
    ensures Writes(steps, s) == Some(Mailbox(t)) <==>
            steps[s].Fork? && steps[s].out.ToSession? && Session(steps, s) + steps[s].out.ahead == t
    ensures Writes(steps, s) == Some(Mailbox(t)) && Session(steps, k) == t ==> s < k
  {
    if Writes(steps, s) == Some(Mailbox(t)) && Session(steps, k) == t && k <= s {
      SessionMonotone(steps, k, s);
    }
  }

  /** Every session up to the current one has a first step. */
  lemma {:induction false} SessionHead(steps: seq<Step>, k: nat, t: nat) returns (c: nat)
    requires k <= |steps| && 1 <= t <= Session(steps, k)
    ensures c <= k && Head(steps, c) && Session(steps, c) == t
  {
    if Head(steps, k) && Session(steps, k) == t {
      c := k;
    } else {
      c := SessionHead(steps, k - 1, t);
    }
  }
}
