/** The stand-alone shell: `PipeManager` on descriptor slots, `NPShell::run` over input lines, and an
    operating system that hands out descriptors. */
module Shell {
  import opened Text
  import opened PipeGraph
  import opened PipeMachine
  import PlainParser

  // ---------- the operating system ----------

  type Fd = nat

  /** What a descriptor refers to. */
  datatype Target = Stdin | Stdout | Stderr | ReadEnd(pipe: nat) | WriteEnd(pipe: nat) | OutFile(file: string)

  type Descriptors = map<Fd, Target>

  /** The two descriptors of a pipe, or two zeros for no pipe. */
  datatype Ends = Ends(read: Fd, write: Fd)

  const NO_PIPE := Ends(0, 0)

  /** Pipe p gets descriptors of its own; 0, 1 and 2 are the standard streams. */
  function EndsOf(p: nat): Ends {
    Ends(2 * p + 3, 2 * p + 4)
  }

  class Kernel {
    var issued: nat
    var open: Descriptors

    constructor ()
      ensures issued == 0 && open == map[0 := Stdin, 1 := Stdout, 2 := Stderr]
    {
      issued, open := 0, map[0 := Stdin, 1 := Stdout, 2 := Stderr];
    }

    method Pipe() returns (ends: Ends)
      modifies this
      ensures ends == EndsOf(old(issued)) && issued == old(issued) + 1
      ensures open == old(open)[ends.read := ReadEnd(old(issued))][ends.write := WriteEnd(old(issued))]
    {
      ends := EndsOf(issued);
      open := open[ends.read := ReadEnd(issued)][ends.write := WriteEnd(issued)];
      issued := issued + 1;
    }

    /** Closing a descriptor that is not open would be an error, so the caller must know that it is. */
    method Close(fd: Fd)
      requires fd in open
      modifies this
      ensures open == old(open) - {fd} && issued == old(issued)
    {
      open := open - {fd};
    }
  }

  // ---------- PipeManager ----------

  datatype PipeMode = NormalPipe | FileOutput | ConsoleOutput | NumberedPipe | NumberedPipeStderr

  class PipeManager {
    var currentPipe: Ends
    var newPipe: Ends
    var currentNumberedPipe: Ends
    var newNumberedPipe: Ends
    var count: nat
    var countPipeMap: map<nat, Ends>
    const kernel: Kernel

    constructor (kernel: Kernel)
      ensures this.kernel == kernel
      ensures currentPipe == newPipe == currentNumberedPipe == newNumberedPipe == NO_PIPE
      ensures count == 0 && countPipeMap == map[]
    {
      this.kernel := kernel;
      currentPipe, newPipe, currentNumberedPipe, newNumberedPipe := NO_PIPE, NO_PIPE, NO_PIPE, NO_PIPE;
      count, countPipeMap := 0, map[];
    }

    method NewSession()
      modifies this
      ensures currentPipe == newPipe == newNumberedPipe == NO_PIPE && count == old(count) + 1
      ensures var pipes := old(countPipeMap) - {old(count)};
              && currentNumberedPipe == (if count in pipes then pipes[count] else NO_PIPE)
              && countPipeMap == pipes - {count}
    {
      currentPipe, newPipe, newNumberedPipe, currentNumberedPipe := NO_PIPE, NO_PIPE, NO_PIPE, NO_PIPE;
      ReduceNumberedPipesCount();
      LoadCurrentNumberedPipe();
    }

    method ReduceNumberedPipesCount()
      modifies this`countPipeMap, this`count
      ensures countPipeMap == old(countPipeMap) - {old(count)} && count == old(count) + 1
    {
      countPipeMap := countPipeMap - {count};
      count := count + 1;
    }

    method LoadCurrentNumberedPipe()
      modifies this`currentNumberedPipe, this`countPipeMap
      ensures currentNumberedPipe == (if count in old(countPipeMap) then old(countPipeMap)[count] else NO_PIPE)
      ensures countPipeMap == old(countPipeMap) - {count}
    {
      if count !in countPipeMap {
        currentNumberedPipe := NO_PIPE;
        return;
      }
      currentNumberedPipe := countPipeMap[count];
      countPipeMap := countPipeMap - {count};
    }

    method AddNumberedPipe(countIn: nat)
      modifies this`countPipeMap, this`newNumberedPipe, kernel
      ensures var idx := count + countIn;
              if idx in old(countPipeMap) then
                newNumberedPipe == old(countPipeMap)[idx] && countPipeMap == old(countPipeMap)
                && kernel.issued == old(kernel.issued) && kernel.open == old(kernel.open)
              else
                newNumberedPipe == EndsOf(old(kernel.issued))
                && countPipeMap == old(countPipeMap)[idx := newNumberedPipe]
                && kernel.issued == old(kernel.issued) + 1
                && kernel.open == old(kernel.open)[newNumberedPipe.read := ReadEnd(old(kernel.issued))]
                                                  [newNumberedPipe.write := WriteEnd(old(kernel.issued))]
    {
      var idx := count + countIn;
      var foundPipe := NO_PIPE;
      if idx !in countPipeMap {
        foundPipe := kernel.Pipe();
        countPipeMap := countPipeMap[idx := foundPipe];
      } else {
        foundPipe := countPipeMap[idx];
      }
      newNumberedPipe := foundPipe;
    }

    method RootPipeHandler(mode: PipeMode)
      modifies this`currentPipe, this`currentNumberedPipe, this`newPipe, kernel
      ensures var due := old(currentNumberedPipe);
              if due.read != 0 && due.write != 0 then currentPipe == due && currentNumberedPipe == NO_PIPE
              else currentPipe == old(currentPipe) && currentNumberedPipe == due
      ensures mode.NormalPipe? ==>
              newPipe == EndsOf(old(kernel.issued)) && kernel.issued == old(kernel.issued) + 1
              && kernel.open == old(kernel.open)[newPipe.read := ReadEnd(old(kernel.issued))]
                                                [newPipe.write := WriteEnd(old(kernel.issued))]
      ensures !mode.NormalPipe? ==>
              kernel.issued == old(kernel.issued) && kernel.open == old(kernel.open)
              && newPipe == (if mode.NumberedPipe? || mode.NumberedPipeStderr? then newNumberedPipe else old(newPipe))
    {
      if currentNumberedPipe.read != 0 && currentNumberedPipe.write != 0 {
        currentPipe := currentNumberedPipe;
        currentNumberedPipe := NO_PIPE;
      }
      if mode.NumberedPipe? || mode.NumberedPipeStderr? {
        newPipe := newNumberedPipe;
      } else if mode.NormalPipe? {
        newPipe := kernel.Pipe();
      }
    }

    /** The slot's descriptors are usable: both zero, or two different open ones. */
    ghost predicate Open(slot: Ends)
      reads kernel
    {
      slot.read != 0 && slot.write != 0 ==>
        slot.read in kernel.open && slot.write in kernel.open && slot.read != slot.write
    }

    method ParentPipeHandler(mode: PipeMode)
      requires Open(currentPipe)
      modifies this`currentPipe, this`newPipe, kernel
      ensures kernel.issued == old(kernel.issued)
      ensures var input := old(currentPipe);
              kernel.open == (if input.read != 0 && input.write != 0
                              then old(kernel.open) - {input.read, input.write} else old(kernel.open))
      ensures currentPipe == (if mode.NormalPipe? then old(newPipe) else old(currentPipe)) && newPipe == NO_PIPE
    {
      if currentPipe.read != 0 && currentPipe.write != 0 {
        kernel.Close(currentPipe.read);
        kernel.Close(currentPipe.write);
      }
      if mode.NormalPipe? {
        currentPipe := newPipe;
      }
      newPipe := NO_PIPE;
    }

    /** Runs in the forked child, on the child's copy of the descriptors. */
    method ChildPipeHandler(mode: PipeMode, outFilename: string) returns (fds: Descriptors)
      requires 0 in kernel.open && 1 in kernel.open && 2 in kernel.open
      requires Open(currentPipe) && currentPipe.read !in {1, 2} && currentPipe.write !in {1, 2}
      requires mode.NormalPipe? || mode.NumberedPipe? || mode.NumberedPipeStderr? ==>
               newPipe.read > 2 && newPipe.write > 2 && Open(newPipe)
               && {newPipe.read, newPipe.write} !! {currentPipe.read, currentPipe.write}
      requires EndsOf(kernel.issued).read !in {currentPipe.read, currentPipe.write}
      ensures 0 in fds && 1 in fds && 2 in fds
      ensures var piped := currentPipe.read != 0 && currentPipe.write != 0;
              && fds[0] == (if piped then kernel.open[currentPipe.read] else kernel.open[0])
              && (piped ==> currentPipe.write !in fds && currentPipe.read !in fds)
      ensures var toPipe := mode.NormalPipe? || mode.NumberedPipe? || mode.NumberedPipeStderr?;
              && fds[1] == (if mode.FileOutput? then OutFile(outFilename)
                            else if toPipe then kernel.open[newPipe.write] else kernel.open[1])
              && fds[2] == (if mode.NumberedPipeStderr? then kernel.open[newPipe.write] else kernel.open[2])
              && (toPipe ==> newPipe.read !in fds && newPipe.write !in fds)
      ensures forall fd | fd in fds && fd > 2 ::
                (fd in kernel.open && fds[fd] == kernel.open[fd]) || fds[fd] == OutFile(outFilename)
    {
      fds := kernel.open;
      if currentPipe.read != 0 && currentPipe.write != 0 {
        fds := fds - {currentPipe.write};
        fds := fds[0 := fds[currentPipe.read]];
        fds := fds - {currentPipe.read};
      }
      if mode.FileOutput? {
        var outfile := EndsOf(kernel.issued).read;
        fds := fds[outfile := OutFile(outFilename)];
        fds := fds[1 := fds[outfile]];
        return;
      }
      if mode.NormalPipe? || mode.NumberedPipe? || mode.NumberedPipeStderr? {
        fds := fds - {newPipe.read};
        fds := fds[1 := fds[newPipe.write]];
        if mode.NumberedPipeStderr? {
          fds := fds[2 := fds[newPipe.write]];
        }
        fds := fds - {newPipe.write};
      }
    }
  }


  // ---------- NPShell ----------

  /** What the shell did for one command: run it itself, or fork a child with these descriptors. */
  datatype Record =
    | RanBuiltin(name: string, args: seq<string>)
    | Child(name: string, args: seq<string>, fds: Descriptors)

  predicate IsBuiltin(name: string) {
    name == "exit" || name == "printenv" || name == "setenv"
  }

  /** The steps a parsed line makes the shell take, from its i-th command on. */
  function StepsFrom(r: PlainParser.ParseResult, i: nat): (steps: seq<Step>)
    requires PlainParser.WellFormed(r.commands, r.operators) && i <= |r.commands|
    decreases |r.commands| - i
  {
    if i == |r.commands| then []
    else
      var c := r.commands[i];
      var op := if i != |r.operators| then r.operators[i] else "";
      if IsBuiltin(c.name) then [Builtin(c.name, c.args)] + StepsFrom(r, i + 1)
      else if op == "|" then [Fork(c.name, c.args, ToNext)] + StepsFrom(r, i + 1)
      else if op == ">" then
        if i + 1 < |r.commands| then [Fork(c.name, c.args, ToFile(r.commands[i + 1].name))] else []
      else if op == "" then [Fork(c.name, c.args, ToConsole)] + StepsFrom(r, i + 1)
      else [Fork(c.name, c.args, ToSession(PlainParser.Count(op), op[0] == '!'))] + StepsFrom(r, i + 1)
  }

  function LineSteps(line: string): seq<Step> {
    var ts := Tokens(line);
    PlainParser.ParseMeaning(ts);
    var r := PlainParser.ParseTokens(ts);
    if r.errorMessage != "" then [] else StepsFrom(r, 0)
  }

  predicate IsExit(step: Step) {
    step.Builtin? && step.name == "exit"
  }

  predicate Exits(steps: seq<Step>) {
    steps != [] && (IsExit(steps[0]) || Exits(steps[1..]))
  }

  /** The steps of a whole input: lines are read up to and including the first that runs `exit`. */
  function InputSteps(lines: seq<string>): seq<Step> {
    if lines == [] then []
    else LineSteps(lines[0]) + (if Exits(LineSteps(lines[0])) then [] else InputSteps(lines[1..]))
  }

  /** A record shows a child whose streams are the ones of the event, and that cannot keep its own input
      open by holding the end that is written to. */
  ghost predicate Shows(rec: Record, e: Event) {
    match e
    case Ran(name, args) => rec == RanBuiltin(name, args)
    case Forked(name, args, input, output, err) =>
      && rec.Child? && rec.name == name && rec.args == args
      && 0 in rec.fds && 1 in rec.fds && 2 in rec.fds
      && rec.fds[0] == (if input.Some? then ReadEnd(input.value) else Stdin)
      && rec.fds[1] == (match output case Console => Stdout case File(f) => OutFile(f) case Pipe(id) => WriteEnd(id))
      && rec.fds[2] == (if err.Some? then WriteEnd(err.value) else Stderr)
      && (input.Some? ==> WriteEnd(input.value) !in rec.fds.Values)
  }

  ghost predicate AllShow(log: seq<Record>, events: seq<Event>) {
    |log| == |events| && forall i | 0 <= i < |log| :: Shows(log[i], events[i])
  }

  lemma AllShowAppend(log: seq<Record>, events: seq<Event>, rec: Record, e: Event)
    requires AllShow(log, events) && Shows(rec, e)
    ensures AllShow(log + [rec], events + [e])
  {
  }

  ghost predicate Holds(slot: Ends, pipe: Option<nat>) {
    slot == if pipe.Some? then EndsOf(pipe.value) else NO_PIPE
  }

  /** The descriptor table holds the standard streams and both ends of exactly the live pipes. */
  ghost predicate DescriptorsFit(open: Descriptors, live: set<nat>) {
    && 0 in open && 1 in open && 2 in open && open[0] == Stdin && open[1] == Stdout && open[2] == Stderr
    && (forall p: nat :: p in live <==> EndsOf(p).read in open)
    && (forall p: nat :: p in live <==> EndsOf(p).write in open)
    && (forall p: nat | p in live :: open[EndsOf(p).read] == ReadEnd(p) && open[EndsOf(p).write] == WriteEnd(p))
    && (forall fd | fd in open && open[fd].WriteEnd? :: fd == EndsOf(open[fd].pipe).write)
  }

  lemma DescriptorOpens(open: Descriptors, live: set<nat>, p: nat)
    requires DescriptorsFit(open, live) && p !in live
    ensures DescriptorsFit(open[EndsOf(p).read := ReadEnd(p)][EndsOf(p).write := WriteEnd(p)], live + {p})
  {
  }

  lemma DescriptorCloses(open: Descriptors, live: set<nat>, p: nat)
    requires DescriptorsFit(open, live)
    ensures DescriptorsFit(open - {EndsOf(p).read, EndsOf(p).write}, live - {p})
  {
  }

  class NPShell {
    const kernel: Kernel
    const pipeManager: PipeManager
    var exitFlag: bool
    ghost var machine: Machine
    ghost var log: seq<Record>

    /** Everything but the slots that `newSession` overwrites. */
    ghost predicate TablesFit(m: Machine)
      reads this, kernel, pipeManager
    {
      && pipeManager.kernel == kernel
      && pipeManager.count == m.session
      && pipeManager.newPipe == NO_PIPE
      && pipeManager.countPipeMap.Keys == m.table.Keys
      && (forall t | t in m.table :: pipeManager.countPipeMap[t] == EndsOf(m.table[t]))
      && kernel.issued == m.issued
      && PipeMachine.Sound(m)
      && DescriptorsFit(kernel.open, m.live)
    }

    ghost predicate LogFits(m: Machine)
      reads this
    {
      AllShow(log, m.events)
    }

    /** The state between two commands. */
    ghost predicate Fits(m: Machine)
      reads this, kernel, pipeManager
    {
      && TablesFit(m)
      && LogFits(m)
      && Holds(pipeManager.currentPipe, m.link)
      && Holds(pipeManager.currentNumberedPipe, m.due)
    }

    ghost predicate Valid()
      reads this, kernel, pipeManager
    {
      Fits(machine)
    }

    constructor ()
      ensures Valid() && !exitFlag && fresh(kernel) && fresh(pipeManager)
      ensures machine == BEFORE_FIRST_SESSION
    {
      var k := new Kernel();
      kernel := k;
      pipeManager := new PipeManager(k);
      exitFlag := false;
      machine := BEFORE_FIRST_SESSION;
      log := [];
    }

    method EndSession()
      requires TablesFit(machine) && LogFits(machine)
      modifies this`machine, pipeManager
      ensures Valid() && machine == NewSession(old(machine))
    {
      SoundNewSession(machine);
      pipeManager.NewSession();
      machine := NewSession(machine);
    }

    method ExecuteBuiltin(name: string, args: seq<string>)
      requires Valid() && IsBuiltin(name)
      modifies this`machine, this`exitFlag, this`log, pipeManager
      ensures Valid() && machine == Exec(old(machine), Builtin(name, args))
      ensures exitFlag == (old(exitFlag) || name == "exit")
    {
      hide DescriptorsFit;
      if name == "exit" {
        exitFlag := true;
      }
      log := log + [RanBuiltin(name, args)];
      machine := Act(machine, Builtin(name, args));
      EndSession();
    }

    ghost predicate ModeFits(mode: PipeMode, outFilename: string, step: Step)
      reads this, pipeManager
    {
      step.Fork? &&
      match step.out
      case ToNext => mode.NormalPipe?
      case ToFile(file) => mode.FileOutput? && outFilename == file
      case ToConsole => mode.ConsoleOutput?
      case ToSession(ahead, withErr) =>
        && mode == (if withErr then NumberedPipeStderr else NumberedPipe)
        && machine.session + ahead in machine.table
        && pipeManager.newNumberedPipe == EndsOf(machine.table[machine.session + ahead])
    }

    /** The child's streams, once the slots hold its input and its output. */
    method ForkChild(name: string, args: seq<string>, mode: PipeMode, outFilename: string,
                     ghost input: Option<nat>, ghost output: Sink, ghost live: set<nat>) returns (rec: Record)
      requires DescriptorsFit(pipeManager.kernel.open, live) && Holds(pipeManager.currentPipe, input)
      requires pipeManager.kernel == kernel
      requires input.Some? ==> input.value in live && input.value < kernel.issued
      requires match mode
               case ConsoleOutput => output == Console
               case FileOutput => output == File(outFilename)
               case _ => output.Pipe? && output.id in live && pipeManager.newPipe == EndsOf(output.id)
                         && input != Some(output.id)
      ensures var err := if mode.NumberedPipeStderr? && output.Pipe? then Some(output.id) else None;
              Shows(rec, Forked(name, args, input, output, err))
    {
      var fds := pipeManager.ChildPipeHandler(mode, outFilename);
      rec := Child(name, args, fds);
      if input.Some? {
        assert EndsOf(input.value).write !in fds;
        forall fd | fd in fds ensures fds[fd] != WriteEnd(input.value) {
          if fd <= 2 {
            assert fd == 0 || fd == 1 || fd == 2;
          }
        }
      }
    }

    /** The three handlers around the fork. */
    method Wire(name: string, args: seq<string>, mode: PipeMode, outFilename: string, ghost m: Machine, ghost output: Sink)
      returns (child: Record)
      requires TablesFit(m) && Holds(pipeManager.currentPipe, m.link) && Holds(pipeManager.currentNumberedPipe, m.due)
      requires match mode
               case NormalPipe => output == Pipe(m.issued)
               case ConsoleOutput => output == Console
               case FileOutput => output == File(outFilename)
               case _ => output.Pipe? && output.id in m.live && pipeManager.newNumberedPipe == EndsOf(output.id)
                         && Input(m) != Some(output.id)
      modifies kernel, pipeManager`currentPipe, pipeManager`currentNumberedPipe, pipeManager`newPipe
      ensures kernel.issued == m.issued + (if mode.NormalPipe? then 1 else 0)
      ensures DescriptorsFit(kernel.open, Without(m.live + (if mode.NormalPipe? then {m.issued} else {}), Input(m)))
      ensures pipeManager.newPipe == NO_PIPE && pipeManager.currentNumberedPipe == NO_PIPE
      ensures mode.NormalPipe? ==> pipeManager.currentPipe == EndsOf(m.issued)
      ensures Shows(child, Forked(name, args, Input(m), output,
                                  if mode.NumberedPipeStderr? && output.Pipe? then Some(output.id) else None))
    {
      ghost var input := Input(m);
      ghost var live := m.live + (if mode.NormalPipe? then {m.issued} else {});
      pipeManager.RootPipeHandler(mode);
      assert Holds(pipeManager.currentPipe, input);
      ghost var mid := kernel.open;
      assert DescriptorsFit(mid, live) by {
        if mode.NormalPipe? { DescriptorOpens(old(kernel.open), m.live, m.issued); } else { assert live == m.live; }
      }
      child := ForkChild(name, args, mode, outFilename, input, output, live);
      pipeManager.ParentPipeHandler(mode);
      assert DescriptorsFit(kernel.open, Without(live, input)) by {
        if input.Some? { DescriptorCloses(mid, live, input.value); }
      }
    }

    method ExecuteForkedCommand(name: string, args: seq<string>, mode: PipeMode, outFilename: string, ghost step: Step)
      requires Valid() && ModeFits(mode, outFilename, step) && step.name == name && step.args == args
      modifies this`log, this`machine, kernel, pipeManager
      ensures TablesFit(machine) && LogFits(machine)
      ensures machine == Act(old(machine), step)
      ensures step.out.ToNext? ==> Valid()
    {
      hide DescriptorsFit, PipeMachine.Sound, AllShow, Shows;
      ghost var m := machine;
      ghost var output := OutputOf(m, step.out);
      SoundAct(m, step);
      var child := Wire(name, args, mode, outFilename, m, output);
      ActShape(m, step);
      AllShowAppend(log, m.events, child, Forked(name, args, Input(m), output, ErrorOf(m, step.out)));
      log := log + [child];
      machine := Act(m, step);
    }

    /** A command whose output does not go to the next command, and the session it ends. */
    method ExecuteLast(name: string, args: seq<string>, mode: PipeMode, outFilename: string, ghost step: Step)
      requires Valid() && ModeFits(mode, outFilename, step) && step.name == name && step.args == args
      requires step.EndsSession()
      modifies this`log, this`machine, kernel, pipeManager
      ensures Valid() && machine == Exec(old(machine), step)
    {
      ExecuteForkedCommand(name, args, mode, outFilename, step);
      EndSession();
    }

    /** The mailbox that `|N` or `!N` writes to. */
    method ReserveMailbox(count: Pos)
      requires Valid()
      modifies this`machine, kernel, pipeManager
      ensures Valid() && machine == Reserve(old(machine), old(machine).session + count)
      ensures old(machine).session + count in machine.table
      ensures pipeManager.newNumberedPipe == EndsOf(machine.table[old(machine).session + count])
    {
      hide DescriptorsFit, PipeMachine.Sound, AllShow;
      ghost var m := machine;
      ghost var t := m.session + count;
      pipeManager.AddNumberedPipe(count);
      SoundReserve(m, t);
      if t in m.table {
        assert Reserve(m, t) == m;
      } else {
        DescriptorOpens(old(kernel.open), m.live, m.issued);
        machine := Reserve(m, t);
        assert TablesFit(machine);
      }
    }

    /** `|N` and `!N`. */
    method ExecuteNumbered(name: string, args: seq<string>, count: Pos, withErr: bool)
      requires Valid()
      modifies this`log, this`machine, kernel, pipeManager
      ensures Valid() && machine == Exec(old(machine), Fork(name, args, ToSession(count, withErr)))
    {
      hide DescriptorsFit, PipeMachine.Sound;
      ghost var step := Fork(name, args, ToSession(count, withErr));
      ActReserved(machine, step);
      ReserveMailbox(count);
      ExecuteLast(name, args, if withErr then NumberedPipeStderr else NumberedPipe, "", step);
    }

    /** One command of a line; `ended` says that the rest of the line is given up. */
    method ExecuteCommand(r: PlainParser.ParseResult, i: nat) returns (ended: bool)
      requires Valid() && PlainParser.WellFormed(r.commands, r.operators) && i < |r.commands|
      modifies this`log, this`machine, this`exitFlag, kernel, pipeManager
      ensures Valid()
      ensures var todo := StepsFrom(r, i);
              && exitFlag == (old(exitFlag) || (todo != [] && IsExit(todo[0])))
              && if ended then |todo| <= 1 && machine == ExecAll(old(machine), todo)
                 else todo != [] && todo[1..] == StepsFrom(r, i + 1) && machine == Exec(old(machine), todo[0])
    {
      hide DescriptorsFit, PipeMachine.Sound, AllShow, Act, NewSession;
      hide NPShell.TablesFit, NPShell.LogFits;
      var c := r.commands[i];
      var op := if i != |r.operators| then r.operators[i] else "";
      ghost var todo := StepsFrom(r, i);
      ended := false;
      if IsBuiltin(c.name) {
        ExecuteBuiltin(c.name, c.args);
      } else if op == "|" {
        ExecuteForkedCommand(c.name, c.args, NormalPipe, "", todo[0]);
      } else if op == ">" {
        if i + 1 < |r.commands| {
          ExecuteLast(c.name, c.args, FileOutput, r.commands[i + 1].name, todo[0]);
          assert todo[1..] == [];
        }
        ended := true;
      } else if op != "" {
        ExecuteNumbered(c.name, c.args, PlainParser.Count(op), op[0] == '!');
      } else {
        ExecuteLast(c.name, c.args, ConsoleOutput, "", todo[0]);
      }
    }

    /** The loop over the commands of one line. */
    method ExecuteLine(r: PlainParser.ParseResult)
      requires Valid() && PlainParser.WellFormed(r.commands, r.operators)
      modifies this`log, this`machine, this`exitFlag, kernel, pipeManager
      ensures Valid() && machine == ExecAll(old(machine), StepsFrom(r, 0))
      ensures exitFlag == (old(exitFlag) || Exits(StepsFrom(r, 0)))
    {
      hide Exec, PlainParser.WellFormed, NPShell.Valid;
      var i := 0;
      while i < |r.commands|
        invariant i <= |r.commands|
        invariant Valid()
        invariant ExecAll(machine, StepsFrom(r, i)) == ExecAll(old(machine), StepsFrom(r, 0))
        invariant (exitFlag || Exits(StepsFrom(r, i))) == (old(exitFlag) || Exits(StepsFrom(r, 0)))
      {
        var ended := ExecuteCommand(r, i);
        if ended {
          assert StepsFrom(r, i) == [] || StepsFrom(r, i)[1..] == [];
          return;
        }
        i := i + 1;
      }
    }

    /** One line of the input. */
    method RunLine(line: string)
      requires Valid()
      modifies this`log, this`machine, this`exitFlag, kernel, pipeManager
      ensures Valid() && machine == ExecAll(old(machine), LineSteps(line))
      ensures exitFlag == (old(exitFlag) || Exits(LineSteps(line)))
    {
      hide Exec, NPShell.Valid;
      var r := PlainParser.Parse(line);
      PlainParser.ParseMeaning(Tokens(line));
      ExecuteLine(r);
    }

    /** What the constructor of `PipeManager` does before the first line. */
    method FirstSession()
      requires Valid() && machine == BEFORE_FIRST_SESSION
      modifies this`machine, pipeManager
      ensures Valid() && machine == PipeMachine.NewSession(BEFORE_FIRST_SESSION)
    {
      EndSession();
    }

    /** The shell on a whole input. */
    method Run(lines: seq<string>)
      requires Valid() && !exitFlag && machine == BEFORE_FIRST_SESSION
      modifies this`log, this`machine, this`exitFlag, kernel, pipeManager
      ensures Valid() && machine == PipeMachine.Run(InputSteps(lines), |InputSteps(lines)|)
      ensures WiredLog(log, InputSteps(lines))
      ensures DescriptorsFit(kernel.open, machine.live)
    {
      hide Exec, Exits, LineSteps, NewSession, PipeMachine.Run, NPShell.Valid, DescriptorsFit, WiredLog;
      FirstSession();
      ghost var start := machine;
      var i := 0;
      while i < |lines| && !exitFlag
        invariant i <= |lines|
        invariant Valid()
        invariant ExecAll(machine, if exitFlag then [] else InputSteps(lines[i..])) == ExecAll(start, InputSteps(lines))
      {
        ghost var steps := LineSteps(lines[i]);
        assert lines[i..][0] == lines[i] && lines[i..][1..] == lines[i + 1..];
        ExecAllAppend(machine, steps, if Exits(steps) then [] else InputSteps(lines[i + 1..]));
        RunLine(lines[i]);
        i := i + 1;
      }
      Finished(InputSteps(lines));
    }

    /** What holds when the whole input has been run. */
    lemma Finished(steps: seq<Step>)
      requires Valid() && machine == ExecAll(PipeMachine.NewSession(BEFORE_FIRST_SESSION), steps)
      ensures machine == PipeMachine.Run(steps, |steps|)
      ensures WiredLog(log, steps) && DescriptorsFit(kernel.open, machine.live)
    {
      hide DescriptorsFit, PipeMachine.Sound;
      assert steps[0..] == steps;
      RunIsExecAll(steps, 0);
      LogIsWired(log, steps);
    }
  }

  // ---------- the whole shell against the graph ----------

  /** Standard input is the named pipe, whose other end the child does not hold, or the shell's own. */
  ghost predicate Reading(fds: Descriptors, names: Naming, node: Option<Node>)
    requires 0 in fds
  {
    if node.None? then fds[0] == Stdin
    else node.value in names && fds[0] == ReadEnd(names[node.value]) && WriteEnd(names[node.value]) !in fds.Values
  }

  /** The record of step k has the streams of the graph. */
  ghost predicate WiredRecord(rec: Record, names: Naming, steps: seq<Step>, k: nat)
    requires k < |steps|
  {
    match steps[k]
    case Builtin(name, args) => rec == RanBuiltin(name, args)
    case Fork(name, args, out) =>
      && rec.Child? && rec.name == name && rec.args == args
      && 0 in rec.fds && 1 in rec.fds && 2 in rec.fds
      && Reading(rec.fds, names, Reads(steps, k))
      && (Writes(steps, k).Some? ==> Writes(steps, k).value in names)
      && rec.fds[1] == (match out
                        case ToConsole => Stdout
                        case ToFile(file) => OutFile(file)
                        case _ => WriteEnd(names[Writes(steps, k).value]))
      && rec.fds[2] == (if out.ToSession? && out.withErr then WriteEnd(names[Writes(steps, k).value]) else Stderr)
  }

  ghost predicate WiredLog(log: seq<Record>, steps: seq<Step>) {
    |log| == |steps| &&
    exists names: Naming :: Injective(names) && forall k: nat | k < |steps| :: WiredRecord(log[k], names, steps, k)
  }

  lemma RecordIsWired(rec: Record, e: Event, names: Naming, steps: seq<Step>, k: nat)
    requires k < |steps| && Shows(rec, e) && Realises(names, steps, k, e)
    ensures WiredRecord(rec, names, steps, k)
  {
  }

  lemma LogIsWired(log: seq<Record>, steps: seq<Step>)
    requires AllShow(log, PipeMachine.Run(steps, |steps|).events)
    ensures WiredLog(log, steps)
  {
    var names := RunFits(steps, |steps|);
    var events := PipeMachine.Run(steps, |steps|).events;
    forall k: nat | k < |steps| ensures WiredRecord(log[k], names, steps, k) {
      RecordIsWired(log[k], events[k], names, steps, k);
    }
  }
}
