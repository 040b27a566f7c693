/** The bookkeeping that turns commands into wired processes, on numbered pipes: the specification of
    `PipeManager` driven by `NPShell::run`, and the proof that it realises the graph of `PipeGraph`. */
module PipeMachine {
  import opened Text
  import opened PipeGraph

  datatype Sink = Console | File(name: string) | Pipe(id: nat)

  /** What a command was given: the pipe on its standard input, its standard output, and the pipe on its
      standard error. */
  datatype Event =
    | Ran(name: string, args: seq<string>)
    | Forked(name: string, args: seq<string>, input: Option<nat>, output: Sink, err: Option<nat>)

  /** `link` is the pipe from the previous command, `due` the mailbox of the session being opened,
      `table` the mailboxes of later sessions by absolute session number, `live` the pipes whose two ends
      the shell still has open. */
  datatype Machine = Machine(
    session: nat,
    link: Option<nat>,
    due: Option<nat>,
    table: map<nat, nat>,
    issued: nat,
    live: set<nat>,
    events: seq<Event>)

  const BEFORE_FIRST_SESSION := Machine(0, None, None, map[], 0, {}, [])

  function NewSession(m: Machine): Machine {
    var table := m.table - {m.session};
    var t := m.session + 1;
    m.(session := t, link := None,
       due := if t in table then Some(table[t]) else None,
       table := table - {t})
  }

  function Input(m: Machine): Option<nat> {
    if m.due.Some? then m.due else m.link
  }

  function Without(live: set<nat>, input: Option<nat>): set<nat> {
    if input.Some? then live - {input.value} else live
  }

  /** `addNumberedPipe`: the mailbox of session t, opened if nobody has sent anything there yet. */
  function Reserve(m: Machine, t: nat): Machine {
    if t in m.table then m
    else m.(table := m.table[t := m.issued], issued := m.issued + 1, live := m.live + {m.issued})
  }

  /** A command takes its input, and the shell closes its own ends of it. */
  function Feed(m: Machine): Machine {
    m.(link := None, due := None, live := Without(m.live, Input(m)))
  }

  /** A new pipe to the next command. */
  function OpenLink(m: Machine): Machine {
    m.(link := Some(m.issued), issued := m.issued + 1, live := m.live + {m.issued})
  }

  /** A command in the middle of its session: it takes its input, and gets a pipe for its output. */
  function Act(m: Machine, step: Step): Machine {
    match step
    case Builtin(name, args) => m.(events := m.events + [Ran(name, args)])
    case Fork(name, args, out) =>
      var input := Input(m);
      match out
      case ToNext => OpenLink(Feed(m)).(events := m.events + [Forked(name, args, input, Pipe(m.issued), None)])
      case ToFile(file) => Feed(m).(events := m.events + [Forked(name, args, input, File(file), None)])
      case ToConsole => Feed(m).(events := m.events + [Forked(name, args, input, Console, None)])
      case ToSession(ahead, withErr) =>
        var r := Reserve(m, m.session + ahead);
        var id := r.table[m.session + ahead];
        Feed(r).(events := m.events + [Forked(name, args, input, Pipe(id), if withErr then Some(id) else None)])
  }

  function Exec(m: Machine, step: Step): Machine {
    if step.EndsSession() then NewSession(Act(m, step)) else Act(m, step)
  }

  /** The machine after the first k steps. */
  function Run(steps: seq<Step>, k: nat): Machine
    requires k <= |steps|
  {
    if k == 0 then NewSession(BEFORE_FIRST_SESSION) else Exec(Run(steps, k - 1), steps[k - 1])
  }

  // ---------- the graph, with pipe numbers in place of names ----------

  type Naming = map<Node, nat>

  ghost predicate Named(names: Naming, node: Option<Node>, pipe: Option<nat>) {
    match node
    case None => pipe == None
    case Some(n) => n in names && pipe == Some(names[n])
  }

  /** Event k gives step k exactly the streams of the graph. */
  ghost predicate Realises(names: Naming, steps: seq<Step>, k: nat, e: Event)
    requires k < |steps|
  {
    match steps[k]
    case Builtin(name, args) => e == Ran(name, args)
    case Fork(name, args, out) =>
      && e.Forked? && e.name == name && e.args == args
      && Named(names, Reads(steps, k), e.input)
      && match out
         case ToConsole => e.output == Console && e.err == None
         case ToFile(file) => e.output == File(file) && e.err == None
         case ToNext => e.output.Pipe? && Named(names, Writes(steps, k), Some(e.output.id)) && e.err == None
         case ToSession(_, withErr) =>
           && e.output.Pipe? && Named(names, Writes(steps, k), Some(e.output.id))
           && e.err == (if withErr then Some(e.output.id) else None)
  }

  /** The pipes read before step k by forked commands (or, with `forked` false, by builtins). */
  function ReadBy(steps: seq<Step>, k: nat, forked: bool): set<Node>
    requires k <= |steps|
  {
    if k == 0 then {}
    else ReadBy(steps, k - 1, forked) + (if steps[k - 1].Fork? == forked then Only(Reads(steps, k - 1)) else {})
  }

  /** Names are given to exactly the pipes written so far, one number each. */
  ghost predicate NamesFit(names: Naming, issued: nat, steps: seq<Step>, k: nat)
    requires k <= |steps|
  {
    && Injective(names)
    && names.Keys == Written(steps, k)
    && (forall node | node in names :: names[node] < issued)
    && (forall id: nat | id < issued :: Taken(names, id))
  }

  ghost predicate Taken(names: Naming, id: nat) {
    exists node :: node in names && names[node] == id
  }

  /** The slots hold what the graph says the next step and the later sessions will read. */
  ghost predicate SlotsFit(m: Machine, names: Naming, steps: seq<Step>, k: nat)
    requires k <= |steps|
  {
    && m.session == Session(steps, k)
    && (if Head(steps, k) then m.link == None && Named(names, Reads(steps, k), m.due)
        else m.due == None && Named(names, Some(Link(k - 1)), m.link))
    && (forall t: nat :: t in m.table <==> t > m.session && Mailbox(t) in names)
    && (forall t: nat | t in m.table :: m.table[t] == names[Mailbox(t)])
  }

  ghost predicate LiveFit(live: set<nat>, issued: nat, names: Naming, steps: seq<Step>, k: nat)
    requires k <= |steps|
  {
    && (forall id | id in live :: id < issued)
    && (forall node | node in names :: names[node] in live <==> node !in ReadBy(steps, k, true))
  }

  ghost predicate EventsFit(m: Machine, names: Naming, steps: seq<Step>, k: nat)
    requires k <= |steps|
  {
    |m.events| == k && forall j: nat | j < k :: Realises(names, steps, j, m.events[j])
  }

  ghost predicate Fits(m: Machine, names: Naming, steps: seq<Step>, k: nat)
    requires k <= |steps|
  {
    && NamesFit(names, m.issued, steps, k)
    && SlotsFit(m, names, steps, k)
    && LiveFit(m.live, m.issued, names, steps, k)
    && EventsFit(m, names, steps, k)
  }

  // ---------- one step ----------

  /** Naming the pipe step k writes, if it is new. */
  ghost function Extend(names: Naming, issued: nat, steps: seq<Step>, k: nat): Naming
    requires k < |steps|
  {
    var w := Writes(steps, k);
    if w.Some? && w.value !in names then names[w.value := issued] else names
  }

  /** Step k writes to a pipe nobody wrote to before. */
  predicate Opens(names: Naming, steps: seq<Step>, k: nat)
    requires k < |steps|
  {
    Writes(steps, k).Some? && Writes(steps, k).value !in names
  }

  lemma NamesStep(names: Naming, issued: nat, steps: seq<Step>, k: nat)
    requires k < |steps| && NamesFit(names, issued, steps, k)
    ensures NamesFit(Extend(names, issued, steps, k), issued + (if Opens(names, steps, k) then 1 else 0), steps, k + 1)
    ensures forall node | node in names ::
              node in Extend(names, issued, steps, k) && Extend(names, issued, steps, k)[node] == names[node]
  {
    var names' := Extend(names, issued, steps, k);
    forall id: nat | id < issued ensures Taken(names', id) {
      assert Taken(names, id);
      var node :| node in names && names[node] == id;
      assert names'[node] == id;
    }
    if Opens(names, steps, k) {
      assert names'[Writes(steps, k).value] == issued && Taken(names', issued);
    }
  }

  ghost predicate TableFits(m: Machine, names: Naming) {
    && (forall t: nat :: t in m.table <==> t > m.session && Mailbox(t) in names)
    && (forall t: nat | t in m.table :: m.table[t] == names[Mailbox(t)])
  }

  lemma InputRead(m: Machine, names: Naming, steps: seq<Step>, k: nat)
    requires k <= |steps| && SlotsFit(m, names, steps, k)
    ensures Named(names, Reads(steps, k), Input(m))
  {
  }

  /** What the step opens and closes. */
  lemma ActTotals(m: Machine, names: Naming, steps: seq<Step>, k: nat)
    requires k < |steps| && NamesFit(names, m.issued, steps, k) && SlotsFit(m, names, steps, k)
    requires forall id | id in m.live :: id < m.issued
    ensures var m', opens := Act(m, steps[k]), Opens(names, steps, k);
            && m'.session == m.session
            && m'.issued == m.issued + (if opens then 1 else 0)
            && m'.live == (if steps[k].Fork? then Without(m.live, Input(m)) else m.live)
                          + (if opens then {m.issued} else {})
  {
    FreshLink(steps, k, k);
    InputRead(m, names, steps, k);
    if steps[k].Fork? && steps[k].out.ToSession? {
      assert m.session + steps[k].out.ahead in m.table <==> Mailbox(m.session + steps[k].out.ahead) in names;
    }
  }

  /** The step's own pipe is the one its name stands for afterwards. */
  lemma OutputNamed(m: Machine, names: Naming, steps: seq<Step>, k: nat)
    requires k < |steps| && NamesFit(names, m.issued, steps, k) && SlotsFit(m, names, steps, k)
    ensures var names' := Extend(names, m.issued, steps, k);
            && Act(m, steps[k]).session == m.session
            && TableFits(Act(m, steps[k]), names')
            && (!steps[k].EndsSession() ==>
                  Named(names', Some(Link(k)), Act(m, steps[k]).link) && Act(m, steps[k]).due == None
                  && Act(m, steps[k]).link == Some(m.issued))
  {
    FreshLink(steps, k, k);
    if steps[k].Fork? && steps[k].out.ToSession? {
      var t := m.session + steps[k].out.ahead;
      assert Act(m, steps[k]).table == Reserve(m, t).table;
      assert t in m.table <==> Mailbox(t) in names;
    } else {
      assert Act(m, steps[k]).table == m.table;
    }
  }

  /** Opening a session takes the mailbox that is due out of the table; erasing the old session's entry
      never removes anything. */
  lemma NewSessionFits(m: Machine, names: Naming)
    requires TableFits(m, names)
    ensures m.session !in m.table
    ensures TableFits(NewSession(m), names)
    ensures NewSession(m).due ==
            if Mailbox(m.session + 1) in names then Some(names[Mailbox(m.session + 1)]) else None
  {
    assert m.table - {m.session} == m.table;
  }

  lemma SlotsStep(m: Machine, names: Naming, steps: seq<Step>, k: nat)
    requires k < |steps| && NamesFit(names, m.issued, steps, k) && SlotsFit(m, names, steps, k)
    ensures SlotsFit(Exec(m, steps[k]), Extend(names, m.issued, steps, k), steps, k + 1)
  {
    var names' := Extend(names, m.issued, steps, k);
    var acted := Act(m, steps[k]);
    OutputNamed(m, names, steps, k);
    NamesStep(names, m.issued, steps, k);
    assert names'.Keys == Written(steps, k + 1);
    SlotsAfter(m, acted, names', steps, k);
  }

  lemma SlotsAfter(m: Machine, acted: Machine, names': Naming, steps: seq<Step>, k: nat)
    requires k < |steps| && m.session == acted.session == Session(steps, k)
    requires names'.Keys == Written(steps, k + 1) && TableFits(acted, names')
    requires !steps[k].EndsSession() ==> acted.due == None && Named(names', Some(Link(k)), acted.link)
    ensures SlotsFit(if steps[k].EndsSession() then NewSession(acted) else acted, names', steps, k + 1)
  {
    NewSessionFits(acted, names');
  }

  /** A pipe nobody wrote to yet has not been read yet. */
  lemma {:induction false} ReadWritten(steps: seq<Step>, k: nat, forked: bool)
    requires k <= |steps|
    ensures ReadBy(steps, k, forked) <= Written(steps, k)
  {
    if k > 0 {
      ReadWritten(steps, k - 1, forked);
      if Reads(steps, k - 1).Some? { ReadsWritten(steps, k - 1); }
    }
  }

  lemma {:induction false} ReadByMeaning(steps: seq<Step>, k: nat, forked: bool, node: Node)
    requires k <= |steps|
    ensures node in ReadBy(steps, k, forked) <==>
            exists c: nat | c < k :: Reads(steps, c) == Some(node) && steps[c].Fork? == forked
  {
    hide Reads;
    if k > 0 {
      ReadByMeaning(steps, k - 1, forked, node);
      assert node in ReadBy(steps, k, forked) <==>
             node in ReadBy(steps, k - 1, forked) || (Reads(steps, k - 1) == Some(node) && steps[k - 1].Fork? == forked);
      hide ReadBy;
      if c: nat :| c < k && Reads(steps, c) == Some(node) && steps[c].Fork? == forked {
        assert c == k - 1 || c < k - 1;
      }
    }
  }

  lemma LiveStep(live: set<nat>, live': set<nat>, names: Naming, issued: nat, input: Option<nat>,
                 steps: seq<Step>, k: nat)
    requires k < |steps| && NamesFit(names, issued, steps, k) && Named(names, Reads(steps, k), input)
    requires LiveFit(live, issued, names, steps, k)
    requires live' == (if steps[k].Fork? then Without(live, input) else live)
                      + (if Opens(names, steps, k) then {issued} else {})
    ensures LiveFit(live', issued + (if Opens(names, steps, k) then 1 else 0), Extend(names, issued, steps, k), steps, k + 1)
  {
    var names' := Extend(names, issued, steps, k);
    ReadWritten(steps, k, true);
    if Reads(steps, k).Some? { ReadsWritten(steps, k); }
    forall node | node in names' ensures names'[node] in live' <==> node !in ReadBy(steps, k + 1, true) {
      if node in names {
        assert names[node] in live <==> node !in ReadBy(steps, k, true);
        assert names[node] < issued;
      }
    }
  }

  /** What a step was given stays what the graph says as more pipes get their names. */
  lemma RealisesLater(names: Naming, names': Naming, steps: seq<Step>, j: nat, e: Event)
    requires j < |steps| && Realises(names, steps, j, e)
    requires forall node | node in names :: node in names' && names'[node] == names[node]
    ensures Realises(names', steps, j, e)
  {
  }

  lemma RealisesNow(m: Machine, names: Naming, steps: seq<Step>, k: nat)
    requires k < |steps| && NamesFit(names, m.issued, steps, k) && SlotsFit(m, names, steps, k)
    ensures var events := Act(m, steps[k]).events;
            && |events| == |m.events| + 1 && events[..|m.events|] == m.events
            && Realises(Extend(names, m.issued, steps, k), steps, k, events[|m.events|])
  {
    var names' := Extend(names, m.issued, steps, k);
    InputRead(m, names, steps, k);
    OutputNamed(m, names, steps, k);
    if steps[k].Fork? && steps[k].out.ToSession? {
      var t := m.session + steps[k].out.ahead;
      assert t in Act(m, steps[k]).table;
    }
  }

  lemma EventsStep(m: Machine, names: Naming, steps: seq<Step>, k: nat)
    requires k < |steps| && Fits(m, names, steps, k)
    ensures EventsFit(Exec(m, steps[k]), Extend(names, m.issued, steps, k), steps, k + 1)
  {
    var m' := Exec(m, steps[k]);
    var names' := Extend(names, m.issued, steps, k);
    RealisesNow(m, names, steps, k);
    forall j: nat | j < k + 1 ensures Realises(names', steps, j, m'.events[j]) {
      if j < k {
        assert m'.events[j] == m'.events[..k][j] == m.events[j];
        NamesStep(names, m.issued, steps, k);
        RealisesLater(names, names', steps, j, m.events[j]);
      }
    }
  }

  // ---------- whole runs ----------

  lemma {:induction false} RunFits(steps: seq<Step>, k: nat) returns (names: Naming)
    requires k <= |steps|
    ensures Fits(Run(steps, k), names, steps, k)
  {
    if k == 0 {
      names := map[];
    } else {
      var before := RunFits(steps, k - 1);
      var m := Run(steps, k - 1);
      names := Extend(before, m.issued, steps, k - 1);
      ActTotals(m, before, steps, k - 1);
      InputRead(m, before, steps, k - 1);
      NamesStep(before, m.issued, steps, k - 1);
      SlotsStep(m, before, steps, k - 1);
      LiveStep(m.live, Run(steps, k).live, before, m.issued, Input(m), steps, k - 1);
      EventsStep(m, before, steps, k - 1);
    }
  }

  /** Every event of the run is wired as the graph says, under one naming that keeps pipes apart. */
  ghost predicate Wired(events: seq<Event>, steps: seq<Step>) {
    |events| == |steps| &&
    exists names: Naming :: Injective(names) && forall k: nat | k < |steps| :: Realises(names, steps, k, events[k])
  }

  lemma WiringRefinesGraph(steps: seq<Step>)
    ensures Wired(Run(steps, |steps|).events, steps)
  {
    var names := RunFits(steps, |steps|);
  }

  // ---------- where every pipe is ----------

  ghost predicate Held(m: Machine, id: nat) {
    m.link == Some(id) || m.due == Some(id) || exists t :: t in m.table && m.table[t] == id
  }

  lemma {:induction false} NotYetRead(steps: seq<Step>, c: nat, k: nat, forked: bool, node: Node)
    requires c <= k <= |steps|
    requires forall j: nat | c <= j < k :: Reads(steps, j) != Some(node)
    requires node in ReadBy(steps, k, forked)
    ensures node in ReadBy(steps, c, forked)
  {
    if c < k {
      assert Reads(steps, k - 1) != Some(node);
      NotYetRead(steps, c, k - 1, forked, node);
    }
  }

  /** What is in a slot has not been read before. */
  lemma HeldUnread(m: Machine, names: Naming, steps: seq<Step>, k: nat, node: Node, forked: bool)
    requires k <= |steps| && NamesFit(names, m.issued, steps, k) && SlotsFit(m, names, steps, k)
    requires node in names && Held(m, names[node])
    ensures node !in ReadBy(steps, k, forked)
  {
    if node in ReadBy(steps, k, forked) {
      ReadByMeaning(steps, k, forked, node);
      var c: nat :| c < k && Reads(steps, c) == Some(node) && steps[c].Fork? == forked;
      if Reads(steps, k) == Some(node) {
        OneReader(steps, c, k);
      } else {
        var t :| t in m.table && m.table[t] == names[node];
        assert node == Mailbox(t);
        SessionMonotone(steps, c, k);
      }
    }
  }

  /** What is in no slot has been read. */
  lemma UnheldRead(m: Machine, names: Naming, steps: seq<Step>, k: nat, node: Node) returns (c: nat)
    requires k <= |steps| && NamesFit(names, m.issued, steps, k) && SlotsFit(m, names, steps, k)
    requires node in names && !Held(m, names[node])
    ensures c < k && Reads(steps, c) == Some(node)
  {
    WrittenMeaning(steps, k, node);
    var w: nat :| w < k && Writes(steps, w) == Some(node);
    match node
    case Link(s) =>
      c := s + 1;
    case Mailbox(t) =>
      assert t !in m.table;
      c := SessionHead(steps, k, t);
      if c <= w { SessionMonotone(steps, c, w); }
      WrittenMeaning(steps, c, node);
  }

  lemma HeldUnlessRead(m: Machine, names: Naming, steps: seq<Step>, k: nat, node: Node)
    requires k <= |steps| && NamesFit(names, m.issued, steps, k) && SlotsFit(m, names, steps, k)
    requires node in names
    ensures Held(m, names[node]) <==> node !in ReadBy(steps, k, true) + ReadBy(steps, k, false)
  {
    if Held(m, names[node]) {
      HeldUnread(m, names, steps, k, node, true);
      HeldUnread(m, names, steps, k, node, false);
    } else {
      var c := UnheldRead(m, names, steps, k, node);
      ReadByMeaning(steps, k, steps[c].Fork?, node);
    }
  }

  lemma OneKindOfReader(steps: seq<Step>, k: nat, node: Node)
    requires k <= |steps| && node in ReadBy(steps, k, true)
    ensures node !in ReadBy(steps, k, false)
  {
    hide ReadBy, Reads;
    ReadByMeaning(steps, k, true, node);
    ReadByMeaning(steps, k, false, node);
    var a: nat :| a < k && Reads(steps, a) == Some(node) && steps[a].Fork?;
    if node in ReadBy(steps, k, false) {
      var b: nat :| b < k && Reads(steps, b) == Some(node) && !steps[b].Fork?;
      OneReader(steps, if a < b then a else b, if a < b then b else a);
    }
  }

  /** The whereabouts of a pipe, told by who has read it: held until then, closed once a forked command was
      given it, and dropped, still open, when a builtin ran where its reader should have. */
  ghost predicate Accounted(m: Machine, pipe: nat, steps: seq<Step>, k: nat, node: Node)
    requires k <= |steps|
  {
    && (Held(m, pipe) <==> node !in ReadBy(steps, k, true) && node !in ReadBy(steps, k, false))
    && (pipe !in m.live <==> node in ReadBy(steps, k, true))
    && (pipe in m.live && !Held(m, pipe) <==> node in ReadBy(steps, k, false))
    && !(node in ReadBy(steps, k, true) && node in ReadBy(steps, k, false))
  }

  /** Each pipe ever opened is named by exactly one node of the graph and is in exactly one place. */
  lemma PipeAccounting(steps: seq<Step>, k: nat) returns (names: Naming)
    requires k <= |steps|
    ensures NamesFit(names, Run(steps, k).issued, steps, k)
    ensures forall node | node in names :: Accounted(Run(steps, k), names[node], steps, k, node)
  {
    var m := Run(steps, k);
    names := RunFits(steps, k);
    forall node | node in names ensures Accounted(m, names[node], steps, k, node) {
      HeldUnlessRead(m, names, steps, k, node);
      if node in ReadBy(steps, k, true) { OneKindOfReader(steps, k, node); }
    }
  }

  // ---------- what the slots never do ----------

  /** Pipes in slots are open and no two slots hold the same one. */
  ghost predicate Sound(m: Machine) {
    && (m.link.Some? ==> m.link.value in m.live && m.due == None)
    && (m.due.Some? ==> m.due.value in m.live)
    && (forall t | t in m.table :: t > m.session && m.table[t] in m.live && Input(m) != Some(m.table[t]))
    && (forall t, u | t in m.table && u in m.table && m.table[t] == m.table[u] :: t == u)
    && (forall id | id in m.live :: id < m.issued)
  }

  lemma SoundReserve(m: Machine, t: nat)
    requires Sound(m) && t > m.session
    ensures Sound(Reserve(m, t)) && t in Reserve(m, t).table && Input(Reserve(m, t)) == Input(m)
    ensures m.issued !in m.live
  {
  }

  lemma SoundFeed(m: Machine)
    requires Sound(m)
    ensures Sound(Feed(m))
  {
  }

  lemma SoundOpenLink(m: Machine)
    requires Sound(m) && Input(m) == None
    ensures Sound(OpenLink(m))
  {
  }

  lemma SoundEvents(m: Machine, m': Machine)
    requires Sound(m) && m' == m.(events := m'.events)
    ensures Sound(m')
  {
  }

  lemma SoundInput(m: Machine)
    requires Sound(m)
    ensures Input(m) != Some(m.issued)
    ensures forall t | t in m.table :: m.table[t] in m.live && Input(m) != Some(m.table[t])
  {
  }

  lemma SoundAct(m: Machine, step: Step)
    requires Sound(m)
    ensures Sound(Act(m, step))
    ensures Input(m) != Some(m.issued)
    ensures forall t | t in m.table :: m.table[t] in m.live && Input(m) != Some(m.table[t])
  {
    hide Sound;
    SoundInput(m);
    SoundFeed(m);
    if step.Builtin? {
      SoundEvents(m, Act(m, step));
    } else if step.out.ToNext? {
      SoundOpenLink(Feed(m));
      SoundEvents(OpenLink(Feed(m)), Act(m, step));
    } else if step.out.ToSession? {
      var r := Reserve(m, m.session + step.out.ahead);
      SoundReserve(m, m.session + step.out.ahead);
      SoundFeed(r);
      SoundEvents(Feed(r), Act(m, step));
    } else {
      SoundEvents(Feed(m), Act(m, step));
    }
  }

  /** The standard output of a command whose mailbox, if it has one, is reserved. */
  function OutputOf(m: Machine, out: Output): Sink
    requires out.ToSession? ==> m.session + out.ahead in m.table
  {
    match out
    case ToNext => Pipe(m.issued)
    case ToFile(file) => File(file)
    case ToConsole => Console
    case ToSession(ahead, _) => Pipe(m.table[m.session + ahead])
  }

  function ErrorOf(m: Machine, out: Output): Option<nat>
    requires out.ToSession? ==> m.session + out.ahead in m.table
  {
    if out.ToSession? && out.withErr then Some(m.table[m.session + out.ahead]) else None
  }

  /** A forked command changes the open pipes and the history, and nothing else that outlives it. */
  lemma ActShape(m: Machine, step: Step)
    requires step.Fork? && Input(m) != Some(m.issued)
    requires step.out.ToSession? ==> m.session + step.out.ahead in m.table
    ensures var m', added := Act(m, step), if step.out.ToNext? then {m.issued} else {};
            && m'.session == m.session && m'.table == m.table
            && m'.issued == m.issued + (if step.out.ToNext? then 1 else 0)
            && m'.live == Without(m.live + added, Input(m))
            && m'.events == m.events + [Forked(step.name, step.args, Input(m),
                                               OutputOf(m, step.out), ErrorOf(m, step.out))]
  {
  }

  /** Reserving the mailbox first makes no difference to the command that writes to it. */
  lemma ActReserved(m: Machine, step: Step)
    requires step.Fork? && step.out.ToSession?
    ensures Act(Reserve(m, m.session + step.out.ahead), step) == Act(m, step)
  {
  }

  lemma SoundNewSession(m: Machine)
    requires Sound(m)
    ensures Sound(NewSession(m))
  {
  }

  function ExecAll(m: Machine, steps: seq<Step>): Machine
    decreases |steps|
  {
    if steps == [] then m else ExecAll(Exec(m, steps[0]), steps[1..])
  }

  lemma {:induction false} ExecAllAppend(m: Machine, a: seq<Step>, b: seq<Step>)
    ensures ExecAll(m, a + b) == ExecAll(ExecAll(m, a), b)
    decreases |a|
  {
    if a == [] {
      assert a + b == b;
    } else {
      assert (a + b)[1..] == a[1..] + b;
      ExecAllAppend(Exec(m, a[0]), a[1..], b);
    }
  }

  lemma {:induction false} RunIsExecAll(steps: seq<Step>, k: nat)
    requires k <= |steps|
    ensures ExecAll(Run(steps, k), steps[k..]) == Run(steps, |steps|)
    decreases |steps| - k
  {
    if k < |steps| {
      assert steps[k..][0] == steps[k] && steps[k..][1..] == steps[k + 1..];
      RunIsExecAll(steps, k + 1);
    }
  }

  // ---------- numbered pipes ----------

  /** The output of `|N` or `!N` is due exactly when the N-th later session opens, and never again. */
  lemma NumberedPipeArrives(steps: seq<Step>, k: nat, j: nat)
    requires k < j <= |steps| && steps[k].Fork? && steps[k].out.ToSession?
    ensures |Run(steps, j).events| == j && Run(steps, j).events[k].Forked? && Run(steps, j).events[k].output.Pipe?
    ensures Run(steps, j).due == Some(Run(steps, j).events[k].output.id)
            <==> Head(steps, j) && Session(steps, j) == Session(steps, k) + steps[k].out.ahead
  {
    var names := RunFits(steps, j);
    var m := Run(steps, j);
    var mail := Mailbox(Session(steps, k) + steps[k].out.ahead);
    assert Realises(names, steps, k, m.events[k]);
    assert mail in names && m.events[k].output.id == names[mail];
  }

  // ---------- the absolute counter against a list of countdowns ----------

  /** A pipe that is due in so many sessions. */
  datatype Countdown = Countdown(left: Pos, pipe: nat)

  /** Numbered pipes kept in the plain way: a list of countdowns, the pipe that is due, and the next number. */
  datatype Waiting = Waiting(entries: seq<Countdown>, due: Option<nat>, issued: nat)

  function Find(entries: seq<Countdown>, n: Pos): Option<nat> {
    if entries == [] then None
    else if entries[0].left == n then Some(entries[0].pipe)
    else Find(entries[1..], n)
  }

  /** Every countdown goes down by one; those that reach zero leave the list. */
  function Nearer(entries: seq<Countdown>): seq<Countdown> {
    if entries == [] then []
    else (if entries[0].left == 1 then [] else [Countdown(entries[0].left - 1, entries[0].pipe)]) + Nearer(entries[1..])
  }

  function Book(w: Waiting, n: Pos): Waiting {
    if Find(w.entries, n).Some? then w
    else w.(entries := w.entries + [Countdown(n, w.issued)], issued := w.issued + 1)
  }

  function CountStep(w: Waiting, step: Step): Waiting {
    var w' :=
      if step.Builtin? then w
      else match step.out
        case ToNext => w.(due := None, issued := w.issued + 1)
        case ToSession(ahead, _) => Book(w, ahead).(due := None)
        case _ => w.(due := None);
    if step.EndsSession() then w'.(entries := Nearer(w'.entries), due := Find(w'.entries, 1)) else w'
  }

  function CountRun(steps: seq<Step>, k: nat): Waiting
    requires k <= |steps|
  {
    if k == 0 then Waiting([], None, 0) else CountStep(CountRun(steps, k - 1), steps[k - 1])
  }

  ghost predicate InTable(m: Machine, n: int, p: nat) {
    n >= 1 && m.session + n in m.table && m.table[m.session + n] == p
  }

  /** The table is the list: an entry n sessions away is the one at the counter plus n, and there is no other. */
  ghost predicate Matches(m: Machine, w: Waiting) {
    && m.due == w.due && m.issued == w.issued
    && (forall t | t in m.table :: t > m.session)
    && (forall n: Pos, p: nat :: Countdown(n, p) in w.entries <==> InTable(m, n, p))
  }

  lemma {:induction false} FindIn(entries: seq<Countdown>, n: Pos)
    ensures match Find(entries, n)
            case Some(p) => Countdown(n, p) in entries
            case None => forall p: nat :: Countdown(n, p) !in entries
  {
    if entries != [] {
      FindIn(entries[1..], n);
      assert forall c :: c in entries <==> c == entries[0] || c in entries[1..];
    }
  }

  lemma {:induction false} NearerIn(entries: seq<Countdown>, n: Pos, p: nat)
    ensures Countdown(n, p) in Nearer(entries) <==> Countdown(n + 1, p) in entries
  {
    if entries != [] {
      NearerIn(entries[1..], n, p);
      assert forall c :: c in entries <==> c == entries[0] || c in entries[1..];
    }
  }

  lemma BookMatches(m: Machine, w: Waiting, n: Pos)
    requires Matches(m, w)
    ensures Matches(Reserve(m, m.session + n), Book(w, n))
  {
    FindIn(w.entries, n);
    var m', w' := Reserve(m, m.session + n), Book(w, n);
    if Find(w.entries, n).Some? {
      assert InTable(m, n, Find(w.entries, n).value);
    } else {
      assert m.session + n !in m.table by {
        if m.session + n in m.table { assert InTable(m, n, m.table[m.session + n]); }
      }
      forall i: Pos, p: nat ensures Countdown(i, p) in w'.entries <==> InTable(m', i, p) {
        assert Countdown(i, p) in w.entries <==> InTable(m, i, p);
      }
    }
  }

  lemma SessionMatches(m: Machine, w: Waiting)
    requires Matches(m, w)
    ensures Matches(NewSession(m), w.(entries := Nearer(w.entries), due := Find(w.entries, 1)))
  {
    var m' := NewSession(m);
    FindIn(w.entries, 1);
    assert m'.due == Find(w.entries, 1) by {
      if m.session + 1 in m.table {
        assert InTable(m, 1, m.table[m.session + 1]);
        assert Find(w.entries, 1).Some? ==> InTable(m, 1, Find(w.entries, 1).value);
      } else if Find(w.entries, 1).Some? {
        assert InTable(m, 1, Find(w.entries, 1).value);
      }
    }
    forall n: Pos, p: nat ensures Countdown(n, p) in Nearer(w.entries) <==> InTable(m', n, p) {
      NearerIn(w.entries, n, p);
      assert Countdown(n + 1, p) in w.entries <==> InTable(m, n + 1, p);
    }
  }

  lemma ActMatches(m: Machine, w: Waiting, step: Step)
    requires Matches(m, w)
    ensures Matches(Exec(m, step), CountStep(w, step))
  {
    hide NewSession, Book, Reserve, Find, Nearer;
    if step.Builtin? {
      SessionMatches(Act(m, step), w);
    } else {
      match step.out {
        case ToNext =>
        case ToSession(ahead, _) =>
          BookMatches(m, w, ahead);
          SessionMatches(Act(m, step), Book(w, ahead).(due := None));
        case _ =>
          SessionMatches(Act(m, step), w.(due := None));
      }
    }
  }

  /** For every sequence of steps, the map at absolute session numbers, of which a new session only raises the
      counter, holds exactly what a list holds in which a new session counts every entry down; and the same
      pipe is due. */
  lemma {:induction false} CountsDown(steps: seq<Step>, k: nat)
    requires k <= |steps|
    ensures Matches(Run(steps, k), CountRun(steps, k))
  {
    if k > 0 {
      CountsDown(steps, k - 1);
      ActMatches(Run(steps, k - 1), CountRun(steps, k - 1), steps[k - 1]);
    }
  }
}
