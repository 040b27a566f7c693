/** Any number of server processes working on the shared registry at once. Each operation is the steps
    wait, read, compute, write, signal of its process, and a schedule may interleave the steps of
    different processes in any way. */
module Interleaving {
  import opened Text
  import opened RegistryText
  import opened SharedRegistry
  import ServerParser

  /** What a process asks of the registry: to be registered, to look up its own id, to give the user of
      that id a name, and to be removed. */
  datatype Op = Join(fd: nat, ipAddr: Token) | Find | SetName(id: nat, name: Token) | Leave

  /** `NotFound` is an answer that no run ever gives. */
  datatype Answer = Gave(id: nat) | Found(id: nat) | Named(ok: bool) | Gone | NotFound

  // ---------- one process at a time ----------

  ghost function Apply(m: Registry, p: nat, op: Op): Registry {
    match op
    case Join(fd, ipAddr) => Added(m, p, fd, ipAddr)
    case Find => m
    case SetName(id, name) => if id in m then Renamed(m, id, name) else m
    case Leave => Removed(m, p)
  }

  /** The answer an operation has to give on a set of users. */
  ghost function Expected(m: Registry, p: nat, op: Op): Answer {
    match op
    case Join(_, _) => Gave(LowestFree(m.Keys))
    case Find => if HasPid(m, p) then Found(IdOf(m, p)) else NotFound
    case SetName(id, name) => if id in m then Named(CanRename(m, name)) else NotFound
    case Leave => Gone
  }

  /** The process may make the request: it joins once, and renames only the user it is. */
  ghost predicate Entitled(m: Registry, p: nat, op: Op) {
    match op
    case Join(_, _) => !HasPid(m, p)
    case Find => HasPid(m, p)
    case SetName(id, _) => id in m && m[id].pid == p
    case Leave => HasPid(m, p)
  }

  /** What a process knows about its own registration. */
  datatype Stage = Outside | Inside | Known(id: nat)

  function NextStage(stage: Stage, answer: Answer): Stage {
    match answer
    case Gave(_) => Inside
    case Found(id) => Known(id)
    case Named(_) => Inside
    case Gone => Outside
    case NotFound => stage
  }

  ghost predicate IsPeer(ipAddr: string) {
    exists host, port :: ipAddr == Peer(host, port)
  }

  /** What a process can want with what it knows: it has to be outside to join and inside for the rest, and it
      looks itself up before each renaming. An operator cannot be typed as a name. */
  ghost predicate Possible(stage: Stage, op: Op) {
    match op
    case Join(_, ipAddr) => stage == Outside && IsPeer(ipAddr)
    case Find => stage != Outside
    case SetName(id, name) => stage == Known(id) && !ServerParser.IsOperator(name)
    case Leave => stage != Outside
  }

  datatype Entry = Entry(pid: nat, op: Op, answer: Answer)

  /** What a process knows after some operations. */
  function StageAfter(history: seq<Entry>, p: nat): Stage {
    if history == [] then Outside
    else
      var last, before := history[|history| - 1], StageAfter(history[..|history| - 1], p);
      if last.pid == p then NextStage(before, last.answer) else before
  }

  ghost function After(history: seq<Entry>): Registry {
    if history == [] then map[]
    else
      var last := history[|history| - 1];
      Apply(After(history[..|history| - 1]), last.pid, last.op)
  }

  /** The history is one that processes taking turns could have produced. */
  ghost predicate Legal(history: seq<Entry>) {
    history == [] ||
    var last, m := history[|history| - 1], After(history[..|history| - 1]);
    && Legal(history[..|history| - 1])
    && Entitled(m, last.pid, last.op)
    && Possible(StageAfter(history[..|history| - 1], last.pid), last.op)
    && last.answer == Expected(m, last.pid, last.op)
  }

  // ---------- all processes at once ----------

  /** Where a process is in its critical section. */
  datatype Phase = Idle | Entered(op: Op) | Loaded(op: Op) | Computed(op: Op, answer: Answer) | Committed

  datatype Proc = Proc(phase: Phase, stage: Stage, tables: Tables)

  datatype System = System(sem: nat, text: string, procs: map<nat, Proc>, history: seq<Entry>)

  /** What happens to a process: it starts to serve a connection from an address and port, it looks itself up,
      it runs the k-th command of a line that its client has typed, and its client leaves. */
  datatype Request = WantJoin(fd: nat, host: Ip, port: nat) | WantFind | WantName(line: string, k: nat) | WantLeave

  const NEW_PROC := Proc(Idle, Outside, NO_TABLES)

  const START := System(1, "", map[], [])

  function ProcOf(s: System, p: nat): Proc {
    if p in s.procs then s.procs[p] else NEW_PROC
  }

  /** The name that the k-th command of a line asks for, if it is `name` with an argument. */
  function NameAsked(line: string, k: nat): Option<Token> {
    var cs := ServerParser.ParseLine(line);
    if k < |cs| && cs[k].name == "name" && cs[k].args != [] then
      ServerParser.ArgumentsAreWords(line, k);
      Some(cs[k].args[0])
    else None
  }

  /** The operation a request leads to; a user is renamed by the id that the process found. */
  function Ask(stage: Stage, request: Request): Option<Op> {
    match request
    case WantJoin(fd, host, port) => if stage.Outside? then Some(Join(fd, Peer(host, port))) else None
    case WantFind => if stage.Outside? then None else Some(Find)
    case WantName(line, k) =>
      if stage.Known? && NameAsked(line, k).Some? then Some(SetName(stage.id, NameAsked(line, k).value)) else None
    case WantLeave => if stage.Outside? then None else Some(Leave)
  }

  /** The process's maps after its operation. */
  function Compute(t: Tables, p: nat, op: Op): Tables {
    match op
    case Join(fd, ipAddr) => AddUser(t, p, fd, ipAddr)
    case Find => t
    case SetName(id, name) => if id in t.ids then RenameUser(t, id, name) else t
    case Leave => RemoveUser(t, p)
  }

  function Reply(t: Tables, p: nat, op: Op): Answer {
    match op
    case Join(_, _) => Gave(LowestFree(t.ids.Keys))
    case Find => if p in t.pids then Found(t.pids[p].id) else NotFound
    case SetName(id, name) => if id in t.ids then Named(AcceptsName(t, name)) else NotFound
    case Leave => Gone
  }

  /** Look-ups, refused names and removals of nobody leave the text alone. */
  predicate MustWrite(t: Tables, p: nat, op: Op) {
    match op
    case Join(_, _) => true
    case Find => false
    case SetName(id, name) => AcceptsName(t, name)
    case Leave => p in t.pids
  }

  function Commit(s: System, p: nat, op: Op, answer: Answer): System {
    var proc := ProcOf(s, p);
    s.(procs := s.procs[p := proc.(phase := Committed, stage := NextStage(proc.stage, answer))],
       history := s.history + [Entry(p, op, answer)])
  }

  /** One step of process p, which asks for something new when it is idle. A process that finds the
      semaphore taken does not move. */
  function Step(s: System, p: nat, request: Request): System {
    var proc := ProcOf(s, p);
    match proc.phase
    case Idle =>
      var op := Ask(proc.stage, request);
      if op.None? || s.sem == 0 then s
      else s.(sem := s.sem - 1, procs := s.procs[p := proc.(phase := Entered(op.value))])
    case Entered(op) =>
      s.(procs := s.procs[p := proc.(phase := Loaded(op), tables := Read(s.text))])
    case Loaded(op) =>
      var answer := Reply(proc.tables, p, op);
      if MustWrite(proc.tables, p, op) then
        s.(procs := s.procs[p := proc.(phase := Computed(op, answer), tables := Compute(proc.tables, p, op))])
      else
        Commit(s, p, op, answer)
    case Computed(op, answer) =>
      Commit(s.(text := Print(proc.tables.ids)), p, op, answer)
    case Committed =>
      s.(sem := s.sem + 1, procs := s.procs[p := proc.(phase := Idle)])
  }

  function Run(schedule: seq<(nat, Request)>): System {
    if schedule == [] then START
    else
      var last := schedule[|schedule| - 1];
      Step(Run(schedule[..|schedule| - 1]), last.0, last.1)
  }

  // ---------- what every step keeps ----------

  function Holders(s: System): set<nat> {
    set p | p in s.procs && !s.procs[p].phase.Idle?
  }

  /** At most one process is inside, and the semaphore says whether one is. */
  ghost predicate Exclusive(s: System) {
    && s.sem <= 1
    && (s.sem == 1 ==> forall p: nat :: ProcOf(s, p).phase.Idle?)
    && (s.sem == 0 ==> exists p: nat :: !ProcOf(s, p).phase.Idle?)
    && (forall p: nat, q: nat :: !ProcOf(s, p).phase.Idle? && !ProcOf(s, q).phase.Idle? ==> p == q)
  }

  /** The shared text is the print of the committed operations, in the order of their commits. */
  ghost predicate TextFits(s: System) {
    Legal(s.history) && Good(After(s.history)) && s.text == Print(After(s.history))
  }

  ghost predicate StageFits(m: Registry, p: nat, stage: Stage) {
    && (stage.Outside? <==> !HasPid(m, p))
    && (stage.Known? ==> stage.id in m && m[stage.id].pid == p)
  }

  /** What the process inside has read or computed is about the current users. */
  ghost predicate WorkFits(m: Registry, p: nat, proc: Proc) {
    match proc.phase
    case Idle => true
    case Entered(op) => Entitled(m, p, op) && Possible(proc.stage, op)
    case Loaded(op) => Entitled(m, p, op) && Possible(proc.stage, op) && proc.tables.ids == m && Indexed(proc.tables)
    case Computed(op, answer) =>
      Entitled(m, p, op) && Possible(proc.stage, op) && proc.tables.ids == Apply(m, p, op) && answer == Expected(m, p, op)
    case Committed => true
  }

  ghost predicate Inv(s: System) {
    var m := After(s.history);
    && Exclusive(s) && TextFits(s)
    && (forall p: nat :: StageFits(m, p, ProcOf(s, p).stage))
    && (forall p: nat :: ProcOf(s, p).stage == StageAfter(s.history, p))
    && (forall p: nat :: WorkFits(m, p, ProcOf(s, p)))
  }

  // ---------- operations keep the users well-formed and everybody else's standing ----------

  lemma ApplyGood(m: Registry, p: nat, op: Op)
    requires Good(m) && Entitled(m, p, op)
    ensures Good(Apply(m, p, op))
  {
    match op
    case Join(fd, ipAddr) => AddedGood(m, p, fd, ipAddr);
    case Find =>
    case SetName(id, name) => RenamedGood(m, id, name);
    case Leave => RemovedGood(m, p);
  }

  lemma ComputeFits(t: Tables, p: nat, op: Op)
    requires Indexed(t) && Good(t.ids) && Entitled(t.ids, p, op)
    ensures Compute(t, p, op).ids == Apply(t.ids, p, op)
    ensures Reply(t, p, op) == Expected(t.ids, p, op)
    ensures !MustWrite(t, p, op) ==> Apply(t.ids, p, op) == t.ids
  {
    PidsAgree(t, p);
    match op
    case Join(fd, ipAddr) => AddUserAdds(t, p, fd, ipAddr);
    case Find =>
    case SetName(id, name) => RenameUserRenames(t, id, name);
    case Leave => RemoveUserRemoves(t, p);
  }

  /** One process's operation does not disturb what another process knows about itself. */
  lemma OthersKeepStage(m: Registry, p: nat, op: Op, q: nat, stage: Stage)
    requires Good(m) && Entitled(m, p, op) && q != p && StageFits(m, q, stage)
    ensures StageFits(Apply(m, p, op), q, stage)
  {
    var m' := Apply(m, p, op);
    if HasPid(m, q) {
      var i := IdOf(m, q);
      assert i in m' && m'[i].pid == q;
    }
    if HasPid(m', q) {
      var i := IdOf(m', q);
      assert i in m && m[i].pid == q;
    }
  }

  lemma OwnStage(m: Registry, p: nat, op: Op, stage: Stage)
    requires Good(m) && Entitled(m, p, op) && StageFits(m, p, stage)
    ensures StageFits(Apply(m, p, op), p, NextStage(stage, Expected(m, p, op)))
  {
    var m' := Apply(m, p, op);
    match op
    case Join(fd, ipAddr) => assert m'[LowestFree(m.Keys)].pid == p;
    case Find =>
    case SetName(id, name) => assert m'[id].pid == p;
    case Leave => RemovedGood(m, p);
  }

  // ---------- every step keeps the invariant ----------

  lemma OnlyHolder(s: System, p: nat, q: nat)
    requires Exclusive(s) && !ProcOf(s, p).phase.Idle? && q != p
    ensures ProcOf(s, q).phase.Idle? && s.sem == 0
  {
  }

  /** A step inside the critical section that commits nothing. */
  lemma InsideStep(s: System, p: nat, proc': Proc)
    requires Inv(s) && !ProcOf(s, p).phase.Idle? && !proc'.phase.Idle?
    requires proc'.stage == ProcOf(s, p).stage && WorkFits(After(s.history), p, proc')
    ensures Inv(s.(procs := s.procs[p := proc']))
  {
    hide Legal, Good, Print, StageFits, Entitled, Possible, StageAfter, After;
    var s' := s.(procs := s.procs[p := proc']);
    assert forall q: nat :: ProcOf(s', q) == if q == p then proc' else ProcOf(s, q);
    assert Exclusive(s') by { assert !ProcOf(s', p).phase.Idle?; }
  }

  lemma CommitText(s: System, p: nat, op: Op, answer: Answer, text': string)
    requires TextFits(s)
    requires Entitled(After(s.history), p, op) && answer == Expected(After(s.history), p, op)
    requires Possible(StageAfter(s.history, p), op)
    requires text' == Print(Apply(After(s.history), p, op))
    ensures var s' := Commit(s.(text := text'), p, op, answer);
            TextFits(s') && After(s'.history) == Apply(After(s.history), p, op)
  {
    hide Good, Entitled, Expected, Apply, Possible;
    ApplyGood(After(s.history), p, op);
    var h := s.history + [Entry(p, op, answer)];
    assert h[..|h| - 1] == s.history;
  }

  lemma StageOfMore(h: seq<Entry>, e: Entry, p: nat)
    ensures StageAfter(h + [e], p) == if e.pid == p then NextStage(StageAfter(h, p), e.answer) else StageAfter(h, p)
  {
    assert (h + [e])[..|h|] == h;
  }

  lemma CommitExclusive(s: System, p: nat, op: Op, answer: Answer, text': string)
    requires Exclusive(s) && !ProcOf(s, p).phase.Idle?
    ensures Exclusive(Commit(s.(text := text'), p, op, answer))
  {
    var s' := Commit(s.(text := text'), p, op, answer);
    assert !ProcOf(s', p).phase.Idle?;
    assert forall q: nat :: ProcOf(s', q).phase.Idle? <==> ProcOf(s, q).phase.Idle?;
  }

  lemma CommitStep(s: System, p: nat, op: Op, answer: Answer, text': string)
    requires Inv(s) && !ProcOf(s, p).phase.Idle?
    requires Entitled(After(s.history), p, op) && answer == Expected(After(s.history), p, op)
    requires Possible(ProcOf(s, p).stage, op)
    requires text' == Print(Apply(After(s.history), p, op))
    ensures Inv(Commit(s.(text := text'), p, op, answer))
  {
    hide Exclusive, TextFits, Good, Entitled, Expected, Apply, StageFits, After, Print, NextStage, StageAfter, Possible;
    var m := After(s.history);
    var s' := Commit(s.(text := text'), p, op, answer);
    var m' := Apply(m, p, op);
    CommitText(s, p, op, answer, text');
    CommitExclusive(s, p, op, answer, text');
    TextGood(s);
    forall q: nat
      ensures StageFits(m', q, ProcOf(s', q).stage) && WorkFits(m', q, ProcOf(s', q))
      ensures ProcOf(s', q).stage == StageAfter(s'.history, q)
    {
      StageOfMore(s.history, Entry(p, op, answer), q);
      assert StageFits(m, q, ProcOf(s, q).stage);
      if q == p {
        OwnStage(m, p, op, ProcOf(s, p).stage);
      } else {
        OnlyHolder(s, p, q);
        OthersKeepStage(m, p, op, q, ProcOf(s, q).stage);
      }
    }
  }

  lemma TextGood(s: System)
    requires TextFits(s)
    ensures Good(After(s.history))
  {
  }

  lemma EnterStep(s: System, p: nat, op: Op)
    requires Inv(s) && ProcOf(s, p).phase.Idle? && s.sem > 0 && Entitled(After(s.history), p, op)
    requires Possible(ProcOf(s, p).stage, op)
    ensures Inv(s.(sem := s.sem - 1, procs := s.procs[p := ProcOf(s, p).(phase := Entered(op))]))
  {
    hide Legal, Good, Print, StageFits, Entitled, Possible, StageAfter, After;
    var s' := s.(sem := s.sem - 1, procs := s.procs[p := ProcOf(s, p).(phase := Entered(op))]);
    assert forall q: nat | q != p :: ProcOf(s', q) == ProcOf(s, q);
    assert Exclusive(s') by { assert !ProcOf(s', p).phase.Idle?; }
  }

  lemma LeaveStep(s: System, p: nat)
    requires Inv(s) && !ProcOf(s, p).phase.Idle?
    ensures Inv(s.(sem := s.sem + 1, procs := s.procs[p := ProcOf(s, p).(phase := Idle)]))
  {
    hide Legal, Good, Print, StageFits, Entitled, Possible, StageAfter, After;
    var s' := s.(sem := s.sem + 1, procs := s.procs[p := ProcOf(s, p).(phase := Idle)]);
    assert forall q: nat | q != p :: ProcOf(s', q) == ProcOf(s, q);
    forall q: nat ensures ProcOf(s', q).phase.Idle? {
      if q != p { OnlyHolder(s, p, q); }
    }
  }

  /** A request that the process may make at its stage is one it is entitled to. */
  lemma AskEntitled(m: Registry, p: nat, stage: Stage, request: Request)
    requires StageFits(m, p, stage) && Ask(stage, request).Some?
    ensures Entitled(m, p, Ask(stage, request).value) && Possible(stage, Ask(stage, request).value)
  {
    match request
    case WantJoin(fd, host, port) => assert IsPeer(Peer(host, port));
    case WantFind =>
    case WantName(line, k) => ServerParser.ArgumentsAreWords(line, k);
    case WantLeave =>
  }

  lemma StepKeepsInv(s: System, p: nat, request: Request)
    requires Inv(s)
    ensures Inv(Step(s, p, request))
  {
    var proc := ProcOf(s, p);
    var m := After(s.history);
    assert StageFits(m, p, proc.stage) && WorkFits(m, p, proc);
    match proc.phase
    case Idle =>
      if Ask(proc.stage, request).Some? && s.sem > 0 {
        AskEntitled(m, p, proc.stage, request);
        EnterStep(s, p, Ask(proc.stage, request).value);
      }
    case Entered(op) =>
      ReadOfPrint(m);
      assert Possible(proc.stage, op);
      InsideStep(s, p, proc.(phase := Loaded(op), tables := Read(s.text)));
    case Loaded(op) =>
      ComputeFits(proc.tables, p, op);
      var answer := Reply(proc.tables, p, op);
      if MustWrite(proc.tables, p, op) {
        InsideStep(s, p, proc.(phase := Computed(op, answer), tables := Compute(proc.tables, p, op)));
      } else {
        CommitStep(s, p, op, answer, s.text);
        assert s.(text := s.text) == s;
      }
    case Computed(op, answer) =>
      CommitStep(s, p, op, answer, Print(proc.tables.ids));
    case Committed =>
      LeaveStep(s, p);
  }

  lemma {:induction false} RunKeepsInv(schedule: seq<(nat, Request)>)
    ensures Inv(Run(schedule))
  {
    if schedule != [] {
      var last := schedule[|schedule| - 1];
      RunKeepsInv(schedule[..|schedule| - 1]);
      StepKeepsInv(Run(schedule[..|schedule| - 1]), last.0, last.1);
    }
  }

  // ---------- the results ----------

  /** Mutual exclusion: the semaphore's value and the number of processes inside always add up to one. */
  lemma MutualExclusion(schedule: seq<(nat, Request)>)
    ensures Run(schedule).sem + |Holders(Run(schedule))| == 1
  {
    RunKeepsInv(schedule);
    var s := Run(schedule);
    if s.sem == 1 {
      forall p | p in s.procs ensures s.procs[p].phase.Idle? { assert ProcOf(s, p) == s.procs[p]; }
      assert Holders(s) == {};
    } else {
      var p: nat :| !ProcOf(s, p).phase.Idle?;
      forall q | q in Holders(s) ensures q == p { assert ProcOf(s, q) == s.procs[q]; }
      assert Holders(s) == {p};
    }
  }

  /** Linearizability: whatever the interleaving, the committed operations form a history that processes
      taking turns could have produced, with the same answers, and the text is the print of its result. */
  lemma Linearizable(schedule: seq<(nat, Request)>)
    ensures Legal(Run(schedule).history)
    ensures Run(schedule).text == Print(After(Run(schedule).history))
  {
    RunKeepsInv(schedule);
  }

  /** No two users ever share an id, a pid or a name, and reading the text gives the users back. */
  lemma AlwaysUnique(schedule: seq<(nat, Request)>)
    ensures var m := After(Run(schedule).history);
            Good(m) && Read(Run(schedule).text).ids == m
  {
    RunKeepsInv(schedule);
    ReadOfPrint(After(Run(schedule).history));
  }

  /** A process that looks itself up is always found, and the id it renames is then still its own. */
  lemma {:induction false} NeverNotFound(history: seq<Entry>, k: nat)
    requires Legal(history) && k < |history|
    ensures history[k].answer != NotFound
    ensures history[k].op.SetName? ==>
              var m := After(history[..k]);
              history[k].op.id in m && m[history[k].op.id].pid == history[k].pid
  {
    if k < |history| - 1 {
      NeverNotFound(history[..|history| - 1], k);
      assert history[..|history| - 1][..k] == history[..k];
    }
  }

  // ---------- what a request leads to ----------

  /** All the steps of a process under one request: four, or five if its operation writes. */
  function Turn(s: System, p: nat, request: Request): System {
    var s4 := Step(Step(Step(Step(s, p, request), p, request), p, request), p, request);
    if ProcOf(s4, p).phase.Idle? then s4 else Step(s4, p, request)
  }

  lemma RunMore(schedule: seq<(nat, Request)>, p: nat, request: Request)
    ensures Run(schedule + [(p, request)]) == Step(Run(schedule), p, request)
  {
    assert (schedule + [(p, request)])[..|schedule|] == schedule;
    hide Step;
  }

  /** A turn is something that can happen. */
  lemma TurnIsRun(schedule: seq<(nat, Request)>, p: nat, request: Request) returns (longer: seq<(nat, Request)>)
    ensures Run(longer) == Turn(Run(schedule), p, request)
  {
    hide Run, Step;
    var one := [(p, request)];
    RunMore(schedule, p, request);
    RunMore(schedule + one, p, request);
    RunMore(schedule + one + one, p, request);
    RunMore(schedule + one + one + one, p, request);
    longer := schedule + one + one + one + one;
    if !ProcOf(Run(longer), p).phase.Idle? {
      RunMore(longer, p, request);
      longer := longer + one;
    }
  }

  ghost predicate Quiet(s: System) {
    Inv(s) && s.sem == 1
  }

  ghost predicate Served(s: System, p: nat, op: Op, s': System) {
    var m := After(s.history);
    && Quiet(s') && s'.history == s.history + [Entry(p, op, Expected(m, p, op))]
    && After(s'.history) == Apply(m, p, op)
  }

  lemma CommitServed(s: System, p: nat, op: Op, s': System)
    requires Quiet(s) && Quiet(s') && s'.history == s.history + [Entry(p, op, Expected(After(s.history), p, op))]
    ensures Served(s, p, op, s')
  {
    assert s'.history[..|s.history|] == s.history;
    hide Inv, Apply, Expected;
  }

  lemma TurnKeepsInv(s: System, p: nat, request: Request)
    requires Inv(s)
    ensures Inv(Turn(s, p, request))
  {
    hide Inv, Step;
    var s1 := Step(s, p, request);
    var s2 := Step(s1, p, request);
    var s3 := Step(s2, p, request);
    StepKeepsInv(s, p, request);
    StepKeepsInv(s1, p, request);
    StepKeepsInv(s2, p, request);
    StepKeepsInv(s3, p, request);
    StepKeepsInv(Step(s3, p, request), p, request);
  }

  /** Up to the point where the process has read the text. */
  lemma FirstTwo(s: System, p: nat, request: Request)
    requires Quiet(s) && Ask(ProcOf(s, p).stage, request).Some?
    ensures var s2, op := Step(Step(s, p, request), p, request), Ask(ProcOf(s, p).stage, request).value;
            && s2.history == s.history && s2.sem == 0
            && ProcOf(s2, p).phase == Loaded(op) && ProcOf(s2, p).tables == Read(s.text)
  {
    assert Exclusive(s);
    hide Inv, Read, Ask;
  }

  /** And from there to the end. */
  lemma LastOnes(s: System, p: nat, request: Request, op: Op)
    requires ProcOf(s, p).phase == Loaded(op) && s.sem == 0
    ensures var s4 := Step(Step(s, p, request), p, request);
            var s' := if ProcOf(s4, p).phase.Idle? then s4 else Step(s4, p, request);
            s'.sem == 1 && s'.history == s.history + [Entry(p, op, Reply(ProcOf(s, p).tables, p, op))]
  {
    hide Read, Ask, Reply, MustWrite, Compute, NextStage, Print;
  }

  lemma TurnServes(s: System, p: nat, request: Request)
    requires Quiet(s) && Ask(ProcOf(s, p).stage, request).Some?
    ensures Served(s, p, Ask(ProcOf(s, p).stage, request).value, Turn(s, p, request))
  {
    var op, m := Ask(ProcOf(s, p).stage, request).value, After(s.history);
    StageIn(s, p);
    AskEntitled(m, p, ProcOf(s, p).stage, request);
    FirstTwo(s, p, request);
    LastOnes(Step(Step(s, p, request), p, request), p, request, op);
    TurnKeepsInv(s, p, request);
    ReadOfPrint(m);
    ComputeFits(Read(s.text), p, op);
    hide Inv, Read, Ask, Reply, Step, Apply, Expected;
    CommitServed(s, p, op, Turn(s, p, request));
  }

  lemma StageIn(s: System, p: nat)
    requires Inv(s)
    ensures StageFits(After(s.history), p, ProcOf(s, p).stage) && ProcOf(s, p).stage == StageAfter(s.history, p)
    ensures Good(After(s.history)) && s.text == Print(After(s.history))
  {
  }
  lemma RunFits(schedule: seq<(nat, Request)>, p: nat)
    ensures var s := Run(schedule);
            && Good(After(s.history)) && s.text == Print(After(s.history))
            && StageFits(After(s.history), p, ProcOf(s, p).stage)
  {
    RunKeepsInv(schedule);
    hide Run;
    StageIn(Run(schedule), p);
  }

  lemma TurnOf(schedule: seq<(nat, Request)>, p: nat, request: Request)
    requires Run(schedule).sem == 1 && Ask(ProcOf(Run(schedule), p).stage, request).Some?
    ensures var s, s' := Run(schedule), Turn(Run(schedule), p, request);
            var m, op := After(s.history), Ask(ProcOf(s, p).stage, request).value;
            && s'.text == Print(Apply(m, p, op)) && s'.sem == 1 && After(s'.history) == Apply(m, p, op)
            && ProcOf(s', p).stage == NextStage(ProcOf(s, p).stage, Expected(m, p, op))
  {
    RunKeepsInv(schedule);
    hide Run, Ask, Apply, Expected, Good, Print, Inv, After, Turn, NextStage;
    var s := Run(schedule);
    TurnServes(s, p, request);
    StageIn(s, p);
    StageIn(Turn(s, p, request), p);
    StageOfMore(s.history, Turn(s, p, request).history[|s.history|], p);
  }

  /** A process that starts to serve a connection is registered under the lowest free id, unnamed, with the address
      and the port of its client; the other users stay as they are. */
  lemma JoinTurn(schedule: seq<(nat, Request)>, p: nat, fd: nat, host: Ip, port: nat, a: nat, b: nat, c: nat, d: nat)
    returns (id: nat)
    requires Run(schedule).sem == 1 && !HasPid(After(Run(schedule).history), p) && HasBytes(host, a, b, c, d)
    ensures var m := After(Run(schedule).history);
            var address := Decimal(a) + ("." + (Decimal(b) + ("." + (Decimal(c) + ("." + Decimal(d)))))) + (":" + Decimal(port));
            var s' := Turn(Run(schedule), p, WantJoin(fd, host, port));
            && id >= 1 && id !in m && (forall i | 1 <= i < id :: i in m)
            && s'.text == Print(m[id := User(id, p, fd, address, "")]) && s'.sem == 1
            && After(s'.history) == m[id := User(id, p, fd, address, "")]
  {
    hide Run, Inv, Turn, Print, Good, ProcOf, After, HasBytes, Decimal, Peer, LowestFree;
    RunFits(schedule, p);
    PeerOfBytes(host, port, a, b, c, d);
    TurnOf(schedule, p, WantJoin(fd, host, port));
    id := LowestFree(After(Run(schedule).history).Keys);
  }

  /** A process whose client leaves takes exactly its own user out. */
  lemma LeaveTurn(schedule: seq<(nat, Request)>, p: nat, id: nat)
    requires Run(schedule).sem == 1
    requires var m := After(Run(schedule).history); id in m && m[id].pid == p
    ensures var m, s' := After(Run(schedule).history), Turn(Run(schedule), p, WantLeave);
            && s'.text == Print(m - {id}) && s'.sem == 1
            && After(s'.history) == m - {id} && !HasPid(m - {id}, p)
  {
    hide Run, Inv, Turn, Print, Good, ProcOf, After, HasPid;
    RunFits(schedule, p);
    OnePid(After(Run(schedule).history), p, id);
    RemovedGood(After(Run(schedule).history), p);
    TurnOf(schedule, p, WantLeave);
  }

  lemma OnePid(m: Registry, p: nat, id: nat)
    requires Good(m) && id in m && m[id].pid == p
    ensures HasPid(m, p) && IdOf(m, p) == id
  {
    var i := IdOf(m, p);
    assert i != id ==> Apart(m[i], m[id]);
  }

  /** A process that looks itself up learns its id, and nothing changes. */
  lemma FindTurn(schedule: seq<(nat, Request)>, p: nat, id: nat)
    requires Run(schedule).sem == 1
    requires var m := After(Run(schedule).history); id in m && m[id].pid == p
    ensures var s, s' := Run(schedule), Turn(Run(schedule), p, WantFind);
            s'.text == s.text && s'.sem == 1 && ProcOf(s', p).stage == Known(id) && After(s'.history) == After(s.history)
  {
    hide Run, Inv, Turn, Print, Good, ProcOf, After, HasPid;
    RunFits(schedule, p);
    OnePid(After(Run(schedule).history), p, id);
    TurnOf(schedule, p, WantFind);
  }

  /** And then, when its client has typed `name w`, its user has that name, unless somebody has it already. */
  lemma NameTurn(schedule: seq<(nat, Request)>, p: nat, id: nat, line: string, k: nat, w: string)
    requires Run(schedule).sem == 1 && ProcOf(Run(schedule), p).stage == Known(id) && NameAsked(line, k) == Some(w)
    ensures var m, s' := After(Run(schedule).history), Turn(Run(schedule), p, WantName(line, k));
            && id in m && m[id].pid == p
            && var m' := if exists i | i in m :: m[i].name == w then m else m[id := m[id].(name := w)];
               s'.text == Print(m') && s'.sem == 1 && After(s'.history) == m'
  {
    hide Run, Inv, Turn, Print, Good, ProcOf, After, HasPid, NameAsked;
    RunFits(schedule, p);
    TurnOf(schedule, p, WantName(line, k));
  }

  lemma NameTyped(w: string)
    requires ServerParser.IsItem(w)
    ensures NameAsked("name" + (" " + w), 0) == Some(w)
  {
    var c := ServerParser.Command("name", [w], []);
    assert [c][1..] == [];
    assert ServerParser.Flatten([c]) == ["name", w] by { assert ServerParser.Flatten([]) == []; }
    assert ["name", w][1..] == [w];
    ServerParser.ParseJoin([c]);
    hide ServerParser.ParseLine;
  }

  /** A client of this process has typed the k-th command of its line as `name w`. */
  lemma NameInLine(cs: seq<ServerParser.Command>, line: string, k: nat, w: string)
    requires ServerParser.WellFormed(cs) && Tokens(line) == ServerParser.Flatten(cs)
    requires k < |cs| && cs[k].name == "name" && cs[k].args != [] && cs[k].args[0] == w
    ensures NameAsked(line, k) == Some(w)
  {
    ServerParser.ParseWords(cs, line);
    hide ServerParser.ParseLine;
  }

  lemma Asked(stage: Stage, op: Op) returns (request: Request)
    requires Possible(stage, op)
    ensures Ask(stage, request) == Some(op)
  {
    match op
    case Join(fd, ipAddr) =>
      var host, port :| ipAddr == Peer(host, port);
      request := WantJoin(fd, host, port);
    case Find => request := WantFind;
    case SetName(id, name) =>
      NameTyped(name);
      hide ServerParser.ParseLine;
      request := WantName("name" + (" " + name), 0);
    case Leave => request := WantLeave;
  }

  lemma OneMore(schedule: seq<(nat, Request)>, last: Entry) returns (longer: seq<(nat, Request)>)
    requires Quiet(Run(schedule)) && Legal(Run(schedule).history + [last])
    ensures Run(longer).history == Run(schedule).history + [last] && Quiet(Run(longer))
  {
    var s := Run(schedule);
    var h := s.history;
    assert (h + [last])[..|h|] == h;
    StageIn(s, last.pid);
    hide Run, Possible, Ask, Inv, Entitled, Expected, Apply;
    var request := Asked(StageAfter(h, last.pid), last.op);
    TurnServes(s, last.pid, request);
    longer := TurnIsRun(schedule, last.pid, request);
  }

  lemma LegalBefore(history: seq<Entry>)
    requires Legal(history) && history != []
    ensures Legal(history[..|history| - 1])
  {
  }

  lemma FirstQuiet()
    ensures Run([]).history == [] && Quiet(Run([]))
  {
    RunKeepsInv([]);
  }

  /** Nothing is missing: every legal history is the history of some schedule. */
  lemma {:induction false} EveryHistory(history: seq<Entry>) returns (schedule: seq<(nat, Request)>)
    requires Legal(history)
    ensures Run(schedule).history == history && Quiet(Run(schedule))
  {
    hide Run, Quiet, Legal;
    if history == [] {
      FirstQuiet();
      schedule := [];
    } else {
      var before, last := history[..|history| - 1], history[|history| - 1];
      assert before + [last] == history;
      LegalBefore(history);
      var first := EveryHistory(before);
      schedule := OneMore(first, last);
    }
  }

  // ---------- ids stay small ----------

  ghost function Peak(history: seq<Entry>): nat {
    if history == [] then 0
    else
      var before := Peak(history[..|history| - 1]);
      var now := |After(history)|;
      if now > before then now else before
  }

  /** No id ever exceeds the largest number of users there have been at one time. */
  lemma {:induction false} IdsWithinPeak(history: seq<Entry>, i: nat)
    requires Legal(history) && i in After(history)
    ensures 1 <= i <= Peak(history)
  {
    if history != [] {
      var last, before := history[|history| - 1], history[..|history| - 1];
      var m := After(before);
      if i in m {
        IdsWithinPeak(before, i);
      } else {
        assert last.op.Join? && i == LowestFree(m.Keys);
        assert After(history).Keys == m.Keys + {i};
      }
    }
  }
}
