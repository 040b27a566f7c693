/** Any number of processes working on the shared message queue at once: senders that add a message, and each
    client's message process that makes its passes. Each operation is the steps wait, read, compute, write,
    signal of its process, and a schedule may interleave the steps of different processes in any way. */
module QueueInterleaving {
  import opened Text
  import opened Messages

  /** `Pass` is one pass of the message loop of the process, over the messages with its own pid. */
  datatype Op = Add(message: Message) | Pass

  /** An operation, the queue that it found in the shared text, and what it handled. */
  datatype Entry = Entry(pid: nat, op: Op, found: seq<Message>, handled: seq<Message>)

  // ---------- one process at a time ----------

  function HandledBy(p: nat, op: Op, found: seq<Message>): seq<Message> {
    if op.Pass? then Handled(found, p) else []
  }

  /** The queue that an operation writes back. */
  function Changed(p: nat, op: Op, found: seq<Message>): seq<Message> {
    match op
    case Add(message) => found + [message]
    case Pass => found[|Handled(found, p)|..]
  }

  function TextAfter(history: seq<Entry>): string {
    if history == [] then ""
    else var last := history[|history| - 1]; PrintQueue(Changed(last.pid, last.op, last.found))
  }

  /** The process has been told to exit, and makes no further pass. */
  predicate Stopped(history: seq<Entry>, p: nat) {
    history != [] &&
    var last := history[|history| - 1];
    Stopped(history[..|history| - 1], p) || (last.pid == p && last.op.Pass? && ToldToExit(last.found, p))
  }

  ghost predicate MayFollow(history: seq<Entry>, e: Entry) {
    && QueueOf(TextAfter(history), e.found)
    && e.handled == HandledBy(e.pid, e.op, e.found)
    && (e.op.Pass? ==> !Stopped(history, e.pid))
  }

  /** The history is one that processes taking turns could have produced. */
  ghost predicate Legal(history: seq<Entry>) {
    history == [] || (Legal(history[..|history| - 1]) && MayFollow(history[..|history| - 1], history[|history| - 1]))
  }

  // ---------- all processes at once ----------

  datatype Phase =
    | Idle
    | Entered(op: Op)
    | Loaded(op: Op, found: seq<Message>)
    | Computed(op: Op, found: seq<Message>, queue: seq<Message>)
    | Committed

  datatype System = System(sem: nat, text: string, phases: map<nat, Phase>, stopped: set<nat>, history: seq<Entry>)

  const START := System(1, "", map[], {}, [])

  /** What an idle process wants to do, and what a reading process finds where the text leaves it open. */
  datatype Choice = Choice(op: Op, found: seq<Message>)

  function PhaseOf(s: System, p: nat): Phase {
    if p in s.phases then s.phases[p] else Idle
  }

  function To(s: System, p: nat, phase: Phase): System {
    s.(phases := s.phases[p := phase])
  }

  function Commit(s: System, p: nat, op: Op, found: seq<Message>, queue: seq<Message>): System {
    To(s, p, Committed).(text := PrintQueue(queue),
                         stopped := if op.Pass? && ToldToExit(found, p) then s.stopped + {p} else s.stopped,
                         history := s.history + [Entry(p, op, found, HandledBy(p, op, found))])
  }

  /** One step of process p. A process that finds the semaphore taken does not move. */
  ghost function Step(s: System, p: nat, choice: Choice): System {
    match PhaseOf(s, p)
    case Idle =>
      if s.sem == 0 || (choice.op.Pass? && p in s.stopped) then s
      else To(s, p, Entered(choice.op)).(sem := s.sem - 1)
    case Entered(op) => if QueueOf(s.text, choice.found) then To(s, p, Loaded(op, choice.found)) else s
    case Loaded(op, found) => To(s, p, Computed(op, found, Changed(p, op, found)))
    case Computed(op, found, queue) => Commit(s, p, op, found, queue)
    case Committed => To(s, p, Idle).(sem := s.sem + 1)
  }

  ghost function Run(schedule: seq<(nat, Choice)>): System {
    if schedule == [] then START
    else
      var last := schedule[|schedule| - 1];
      Step(Run(schedule[..|schedule| - 1]), last.0, last.1)
  }

  // ---------- what every step keeps ----------

  function Inside(s: System): set<nat> {
    set p | p in s.phases && !s.phases[p].Idle?
  }

  /** What the process inside has read or computed is about the current text. */
  ghost predicate WorkFits(s: System, p: nat) {
    match PhaseOf(s, p)
    case Entered(op) => op.Pass? ==> p !in s.stopped
    case Loaded(op, found) => QueueOf(s.text, found) && (op.Pass? ==> p !in s.stopped)
    case Computed(op, found, queue) =>
      QueueOf(s.text, found) && (op.Pass? ==> p !in s.stopped) && queue == Changed(p, op, found)
    case _ => true
  }

  ghost predicate Inv(s: System) {
    && s.sem + |Inside(s)| == 1
    && Legal(s.history) && s.text == TextAfter(s.history)
    && (forall p: nat :: p in s.stopped <==> Stopped(s.history, p))
    && (forall p: nat :: WorkFits(s, p))
  }

  lemma OnlyInside(s: System, p: nat, q: nat)
    requires s.sem + |Inside(s)| == 1 && !PhaseOf(s, p).Idle? && q != p
    ensures PhaseOf(s, q).Idle? && Inside(s) == {p} && s.sem == 0
  {
    assert p in Inside(s);
    assert |Inside(s) - {p}| == |Inside(s)| - 1;
    assert Inside(s) - {p} == {};
    assert q !in Inside(s) - {p};
  }

  /** A process that was and stays inside. */
  lemma StaysInside(s: System, p: nat, phase: Phase)
    requires s.sem + |Inside(s)| == 1 && !PhaseOf(s, p).Idle? && !phase.Idle?
    ensures Inside(To(s, p, phase)) == Inside(s)
  {
    assert p in Inside(s);
  }

  lemma InsideStep(s: System, p: nat, phase: Phase)
    requires Inv(s) && !PhaseOf(s, p).Idle? && !phase.Idle? && WorkFits(To(s, p, phase), p)
    ensures Inv(To(s, p, phase))
  {
    hide Legal, TextAfter, Stopped, Inside;
    var s' := To(s, p, phase);
    StaysInside(s, p, phase);
    forall q: nat ensures WorkFits(s', q) { assert WorkFits(s, q); }
  }

  lemma EnterStep(s: System, p: nat, op: Op)
    requires Inv(s) && PhaseOf(s, p).Idle? && s.sem > 0 && (op.Pass? ==> p !in s.stopped)
    ensures Inv(To(s, p, Entered(op)).(sem := s.sem - 1))
  {
    hide Legal, TextAfter, Stopped;
    var s' := To(s, p, Entered(op)).(sem := s.sem - 1);
    assert Inside(s) == {};
    assert Inside(s') == {p};
    forall q: nat ensures WorkFits(s', q) { assert WorkFits(s, q); }
  }

  lemma Outside(s: System, s': System, p: nat)
    requires s'.phases == s.phases[p := Idle]
    ensures Inside(s') == Inside(s) - {p}
  {
    forall q: nat ensures q in Inside(s') <==> q in Inside(s) - {p} { }
  }

  lemma LeaveStep(s: System, p: nat)
    requires Inv(s) && PhaseOf(s, p).Committed?
    ensures Inv(To(s, p, Idle).(sem := s.sem + 1))
  {
    hide Legal, TextAfter, Stopped;
    var s' := To(s, p, Idle).(sem := s.sem + 1);
    OnlyInside(s, p, p + 1);
    Outside(s, s', p);
    forall q: nat ensures WorkFits(s', q) { assert WorkFits(s, q); }
  }

  lemma HistoryAfter(history: seq<Entry>, e: Entry)
    ensures TextAfter(history + [e]) == PrintQueue(Changed(e.pid, e.op, e.found))
    ensures forall p: nat :: Stopped(history + [e], p) <==>
              Stopped(history, p) || (e.pid == p && e.op.Pass? && ToldToExit(e.found, p))
    ensures Legal(history + [e]) <==> Legal(history) && MayFollow(history, e)
  {
    assert (history + [e])[..|history + [e]| - 1] == history;
    hide MayFollow, ToldToExit, PrintQueue;
  }

  lemma CommitStep(s: System, p: nat, op: Op, found: seq<Message>, queue: seq<Message>)
    requires Inv(s) && PhaseOf(s, p) == Computed(op, found, queue)
    ensures Inv(Commit(s, p, op, found, queue))
  {
    hide Legal, TextAfter, Stopped, Inside, QueueOf, PrintQueue, ToldToExit;
    var s' := Commit(s, p, op, found, queue);
    assert WorkFits(s, p);
    HistoryAfter(s.history, Entry(p, op, found, HandledBy(p, op, found)));
    StaysInside(s, p, Committed);
    SameInside(s, s', p);
    forall q: nat ensures WorkFits(s', q) {
      if q != p { OnlyInside(s, p, q); }
    }
  }

  lemma SameInside(s: System, s': System, p: nat)
    requires s'.phases == s.phases[p := Committed]
    ensures Inside(s') == Inside(To(s, p, Committed))
  {
  }

  lemma StepKeepsInv(s: System, p: nat, choice: Choice)
    requires Inv(s)
    ensures Inv(Step(s, p, choice))
  {
    assert WorkFits(s, p);
    hide Legal, TextAfter, Stopped, Inside, QueueOf, PrintQueue;
    match PhaseOf(s, p) {
      case Idle =>
        if s.sem > 0 && !(choice.op.Pass? && p in s.stopped) { EnterStep(s, p, choice.op); }
      case Entered(op) =>
        if QueueOf(s.text, choice.found) { InsideStep(s, p, Loaded(op, choice.found)); }
      case Loaded(op, found) => InsideStep(s, p, Computed(op, found, Changed(p, op, found)));
      case Computed(op, found, queue) => CommitStep(s, p, op, found, queue);
      case Committed => LeaveStep(s, p);
    }
  }

  lemma {:induction false} RunKeepsInv(schedule: seq<(nat, Choice)>)
    ensures Inv(Run(schedule))
  {
    if schedule == [] {
      assert Inside(START) == {};
    } else {
      hide Inv, Step;
      var last := schedule[|schedule| - 1];
      RunKeepsInv(schedule[..|schedule| - 1]);
      StepKeepsInv(Run(schedule[..|schedule| - 1]), last.0, last.1);
    }
  }

  // ---------- the results ----------

  lemma MutualExclusion(schedule: seq<(nat, Choice)>)
    ensures Run(schedule).sem + |Inside(Run(schedule))| == 1
  {
    RunKeepsInv(schedule);
  }

  /** Linearizability: in every schedule of senders and message processes, the committed additions and passes
      form, in lock order, a history of processes taking turns, and the text is what its last operation wrote. */
  lemma Linearizable(schedule: seq<(nat, Choice)>)
    ensures Legal(Run(schedule).history) && Run(schedule).text == TextAfter(Run(schedule).history)
  {
    RunKeepsInv(schedule);
  }

  // ---------- the queue as a fold of the operations ----------

  function QueueAfter(history: seq<Entry>): seq<Message> {
    if history == [] then []
    else
      var last := history[|history| - 1];
      Changed(last.pid, last.op, QueueAfter(history[..|history| - 1]))
  }

  predicate SoundAdds(history: seq<Entry>) {
    forall k | 0 <= k < |history| && history[k].op.Add? :: ReadsBack(history[k].op.message)
  }

  lemma ChangedReadsBack(p: nat, op: Op, q: seq<Message>)
    requires AllReadBack(q) && (op.Add? ==> ReadsBack(op.message))
    ensures AllReadBack(Changed(p, op, q))
  {
    hide ReadsBack, Handled;
  }

  lemma {:induction false} FoundIsFold(history: seq<Entry>)
    requires Legal(history) && SoundAdds(history)
    ensures AllReadBack(QueueAfter(history)) && TextAfter(history) == PrintQueue(QueueAfter(history))
    ensures history != [] ==> history[|history| - 1].found == QueueAfter(history[..|history| - 1])
  {
    hide ReadsBack, Changed, PrintQueue, QueueOf, HandledBy, Stopped;
    if history == [] {
      EmptyQueue();
    } else {
      var before, last := history[..|history| - 1], history[|history| - 1];
      FoundIsFold(before);
      ReadOfPrint(QueueAfter(before), last.found);
      ChangedReadsBack(last.pid, last.op, last.found);
    }
  }

  /** When every message that is added reads back, the shared text is in every schedule the print of the queue that
      the operations make in lock order, and every operation found and handled what they make up to it. */
  lemma QueueOfRun(schedule: seq<(nat, Choice)>, k: nat)
    requires SoundAdds(Run(schedule).history) && k < |Run(schedule).history|
    ensures var h := Run(schedule).history;
            && Run(schedule).text == PrintQueue(QueueAfter(h))
            && h[k].found == QueueAfter(h[..k])
            && h[k].handled == HandledBy(h[k].pid, h[k].op, QueueAfter(h[..k]))
  {
    Linearizable(schedule);
    var h := Run(schedule).history;
    hide Run, PrintQueue, HandledBy, QueueOf, ReadsBack, Stopped, QueueAfter;
    FoundIsFold(h);
    LegalPrefix(h, k + 1);
    FoundIsFold(h[..k + 1]);
    assert h[..k + 1][..k] == h[..k];
  }

  lemma {:induction false} LegalPrefix(h: seq<Entry>, k: nat)
    requires Legal(h) && k <= |h|
    ensures Legal(h[..k])
  {
    hide MayFollow;
    if k == |h| {
      assert h[..k] == h;
    } else {
      LegalPrefix(h[..|h| - 1], k);
      assert h[..|h| - 1][..k] == h[..k];
    }
  }

  // ---------- conversely, every such history is reached ----------

  /** Somebody's operation from beginning to end while nobody else moves. */
  lemma Alone(s: System, p: nat, op: Op, found: seq<Message>)
    requires s.sem == 1 && PhaseOf(s, p).Idle? && (op.Pass? ==> p !in s.stopped) && QueueOf(s.text, found)
    ensures var c := Choice(op, found);
            var s' := Step(Step(Step(Step(Step(s, p, c), p, c), p, c), p, c), p, c);
            && s'.sem == 1 && s'.text == PrintQueue(Changed(p, op, found))
            && s'.phases == s.phases[p := Idle]
            && s'.stopped == (if op.Pass? && ToldToExit(found, p) then s.stopped + {p} else s.stopped)
            && s'.history == s.history + [Entry(p, op, found, HandledBy(p, op, found))]
  {
    hide QueueOf, PrintQueue, Changed, HandledBy, ToldToExit;
    var c := Choice(op, found);
    var s1 := Step(s, p, c);
    assert s1 == To(s, p, Entered(op)).(sem := 0);
    var s2 := Step(s1, p, c);
    assert s2 == To(s, p, Loaded(op, found)).(sem := 0);
    var s3 := Step(s2, p, c);
    assert s3 == To(s, p, Computed(op, found, Changed(p, op, found))).(sem := 0);
    var s4 := Step(s3, p, c);
    assert s4 == Commit(s, p, op, found, Changed(p, op, found)).(sem := 0);
    assert Step(s4, p, c) == To(s4, p, Idle).(sem := 1);
  }

  lemma RunMore(schedule: seq<(nat, Choice)>, p: nat, c: Choice)
    ensures Run(schedule + [(p, c)]) == Step(Run(schedule), p, c)
  {
    assert (schedule + [(p, c)])[..|schedule + [(p, c)]| - 1] == schedule;
    hide Step;
  }

  lemma FiveMore(schedule: seq<(nat, Choice)>, p: nat, c: Choice) returns (longer: seq<(nat, Choice)>)
    ensures Run(longer) == Step(Step(Step(Step(Step(Run(schedule), p, c), p, c), p, c), p, c), p, c)
  {
    hide Run, Step;
    var one := [(p, c)];
    RunMore(schedule, p, c);
    RunMore(schedule + one, p, c);
    RunMore(schedule + one + one, p, c);
    RunMore(schedule + one + one + one, p, c);
    RunMore(schedule + one + one + one + one, p, c);
    longer := schedule + one + one + one + one + one;
  }

  ghost predicate AllIdle(s: System) {
    s.sem == 1 && forall p: nat :: PhaseOf(s, p).Idle?
  }

  lemma StateOf(schedule: seq<(nat, Choice)>, p: nat)
    ensures var s := Run(schedule); s.text == TextAfter(s.history) && (p in s.stopped <==> Stopped(s.history, p))
  {
    RunKeepsInv(schedule);
  }

  lemma OneMore(schedule: seq<(nat, Choice)>, last: Entry) returns (longer: seq<(nat, Choice)>)
    requires AllIdle(Run(schedule)) && MayFollow(Run(schedule).history, last)
    ensures Run(longer).history == Run(schedule).history + [last] && AllIdle(Run(longer))
  {
    StateOf(schedule, last.pid);
    hide Run, Step, TextAfter, Stopped, QueueOf, PrintQueue, Changed, HandledBy, ToldToExit;
    longer := FiveMore(schedule, last.pid, Choice(last.op, last.found));
    Alone(Run(schedule), last.pid, last.op, last.found);
    forall q: nat ensures PhaseOf(Run(longer), q).Idle? {
      assert PhaseOf(Run(schedule), q).Idle?;
    }
  }

  lemma LegalLast(history: seq<Entry>)
    requires Legal(history) && history != []
    ensures Legal(history[..|history| - 1]) && MayFollow(history[..|history| - 1], history[|history| - 1])
  {
  }

  lemma FirstIdle()
    ensures Run([]).history == [] && AllIdle(Run([]))
  {
  }

  /** Nothing is missing: every legal history is the history of some schedule. */
  lemma {:induction false} EveryHistory(history: seq<Entry>) returns (schedule: seq<(nat, Choice)>)
    requires Legal(history)
    ensures Run(schedule).history == history && AllIdle(Run(schedule))
  {
    hide Run, MayFollow, AllIdle, Legal;
    if history == [] {
      FirstIdle();
      schedule := [];
    } else {
      LegalLast(history);
      var before, last := history[..|history| - 1], history[|history| - 1];
      var first := EveryHistory(before);
      schedule := OneMore(first, last);
      assert before + [last] == history;
    }
  }

  lemma TwoAdded(mine: Message, other: Message) returns (history: seq<Entry>)
    requires Printable(mine) && Printable(other)
    ensures |history| == 2 && history[0].op == Add(other) && history[1].op == Add(mine)
    ensures Legal(history) && TextAfter(history) == PrintQueue([other, mine]) && !Stopped(history, mine.pid)
  {
    EmptyQueue();
    assert [] + [other] == [other] && [other] + [mine] == [other, mine];
    hide Legal, QueueOf, PrintQueue, TextAfter, Stopped, Handled, Printable, ToldToExit;
    var first, second := Entry(mine.pid, Add(other), [], []), Entry(mine.pid, Add(mine), [other], []);
    HistoryAfter([], first);
    ReadOfPrint([other], [other]);
    HistoryAfter([] + [first], second);
    history := [] + [first] + [second];
  }

  lemma LossHistory(mine: Message, other: Message) returns (history: seq<Entry>)
    requires mine.pid != other.pid && Printable(mine) && Printable(other)
    ensures |history| == 3 && history[0].op == Add(other) && history[1].op == Add(mine)
    ensures history[2] == Entry(mine.pid, Pass, [other, mine], [mine])
    ensures Legal(history) && TextAfter(history) == PrintQueue([mine])
  {
    var before := TwoAdded(mine, other);
    DrainLosesAnothersMessage(mine, other);
    hide Legal, QueueOf, PrintQueue, TextAfter, Stopped, Handled, Printable, ToldToExit;
    ReadOfPrint([other, mine], [other, mine]);
    HistoryAfter(before, Entry(mine.pid, Pass, [other, mine], [mine]));
    history := before + [Entry(mine.pid, Pass, [other, mine], [mine])];
  }

  /** A message is lost in some run: one is added for another process and then one for this, whose pass handles its
      own message and erases the other. Its own is still there, to be handled again. */
  lemma LossInRun(mine: Message, other: Message) returns (schedule: seq<(nat, Choice)>)
    requires mine.pid != other.pid && Printable(mine) && Printable(other)
    ensures var h := Run(schedule).history;
            && |h| == 3 && h[0].op == Add(other) && h[1].op == Add(mine)
            && h[2] == Entry(mine.pid, Pass, [other, mine], [mine])
            && Run(schedule).text == PrintQueue([mine])
  {
    hide Legal, PrintQueue, TextAfter, AllIdle, Run;
    var history := LossHistory(mine, other);
    schedule := EveryHistory(history);
    Linearizable(schedule);
  }

  lemma EmptyQueue()
    ensures PrintQueue([]) == "" && QueueOf("", []) && TextAfter([]) == "" && Legal([]) && forall p: nat :: !Stopped([], p)
  {
  }
}
