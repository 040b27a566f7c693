/** Per-client environment variables in a process that has only one environment: each client's variables
    are put in before its line runs and taken out afterwards. */
module Environment {
  import opened Text

  /** The environment of the process. A variable that is unset reads as empty. */
  type Env = map<string, string>

  function Var(env: Env, name: string): string {
    if name in env then env[name] else ""
  }

  ghost predicate SameEnv(a: Env, b: Env) {
    forall name :: Var(a, name) == Var(b, name)
  }

  /** A variable a client has used: the value it replaced, and the client's own value. */
  datatype Overlaid = Overlaid(original: string, value: string)

  type Overlay = map<string, Overlaid>

  datatype Op = Set(name: string, value: string) | Get(name: string)

  function Load(env: Env, overlay: Overlay): Env {
    env + map name | name in overlay :: overlay[name].value
  }

  function Reset(env: Env, overlay: Overlay): Env {
    env + map name | name in overlay :: overlay[name].original
  }

  function SetVar(env: Env, overlay: Overlay, name: string, value: string): Overlay {
    if name in overlay then overlay[name := overlay[name].(value := value)]
    else overlay[name := Overlaid(Var(env, name), value)]
  }

  function Touch(env: Env, overlay: Overlay, name: string): Overlay {
    if name in overlay then overlay else overlay[name := Overlaid(Var(env, name), Var(env, name))]
  }

  // ---------- the shell's methods ----------

  class Process {
    var vars: Env

    method SetEnv(name: string, value: string)
      modifies this
      ensures vars == old(vars)[name := value]
    {
      vars := vars[name := value];
    }
  }

  class ShellEnvironment {
    const process: Process
    var envMap: Overlay

    constructor (process: Process)
      ensures this.process == process && envMap == map[]
    {
      this.process := process;
      envMap := map[];
    }

    method SetEnv(name: string, value: string)
      modifies this
      ensures envMap == SetVar(process.vars, old(envMap), name, value)
    {
      if name !in envMap {
        if name in process.vars {
          envMap := envMap[name := Overlaid(process.vars[name], value)];
        } else {
          envMap := envMap[name := Overlaid("", value)];
        }
      } else {
        envMap := envMap[name := envMap[name].(value := value)];
      }
    }

    method GetEnv(name: string) returns (value: string)
      modifies this
      ensures envMap == Touch(process.vars, old(envMap), name) && value == envMap[name].value
    {
      if name !in envMap {
        if name in process.vars {
          envMap := envMap[name := Overlaid(process.vars[name], process.vars[name])];
        } else {
          envMap := envMap[name := Overlaid("", "")];
        }
      }
      value := envMap[name].value;
    }

    /** The entries are visited in no particular order. */
    method LoadEnv()
      modifies process
      ensures process.vars == Load(old(process.vars), envMap)
    {
      hide Load;
      ghost var before := process.vars;
      var todo := envMap;
      while todo != map[]
        invariant forall name | name in todo :: name in envMap && todo[name] == envMap[name]
        invariant Load(process.vars, todo) == Load(before, envMap)
        decreases |todo|
      {
        var name :| name in todo;
        LoadOne(process.vars, todo, name);
        process.SetEnv(name, todo[name].value);
        todo := todo - {name};
      }
      NothingOverlaid(process.vars);
    }

    method ResetEnv()
      modifies process
      ensures process.vars == Reset(old(process.vars), envMap)
    {
      hide Reset;
      ghost var before := process.vars;
      var todo := envMap;
      while todo != map[]
        invariant forall name | name in todo :: name in envMap && todo[name] == envMap[name]
        invariant Reset(process.vars, todo) == Reset(before, envMap)
        decreases |todo|
      {
        var name :| name in todo;
        ResetOne(process.vars, todo, name);
        process.SetEnv(name, todo[name].original);
        todo := todo - {name};
      }
      NothingOverlaid(process.vars);
    }

    /** One line: the variables are loaded, the builtins of the line run, and the variables are reset. */
    method ExecuteLine(ops: seq<Op>) returns (answers: seq<string>)
      modifies this, process
      ensures var loaded := Load(old(process.vars), old(envMap));
              && envMap == OverlayAfter(loaded, old(envMap), ops)
              && answers == Answers(loaded, old(envMap), ops)
              && process.vars == Reset(loaded, envMap)
    {
      LoadEnv();
      answers := [];
      var i := 0;
      while i < |ops|
        invariant i <= |ops|
        invariant process.vars == Load(old(process.vars), old(envMap))
        invariant OverlayAfter(process.vars, envMap, ops[i..]) == OverlayAfter(process.vars, old(envMap), ops)
        invariant answers + Answers(process.vars, envMap, ops[i..]) == Answers(process.vars, old(envMap), ops)
        decreases |ops| - i
      {
        assert ops[i..][1..] == ops[i + 1..];
        match ops[i] {
          case Set(name, value) =>
            SetEnv(name, value);
          case Get(name) =>
            var value := GetEnv(name);
            answers := answers + [value];
        }
        i := i + 1;
      }
      ResetEnv();
    }
  }

  lemma NothingOverlaid(env: Env)
    ensures Load(env, map[]) == env && Reset(env, map[]) == env
  {
  }

  lemma LoadOne(env: Env, todo: Overlay, name: string)
    requires name in todo
    ensures Load(env[name := todo[name].value], todo - {name}) == Load(env, todo)
    ensures |todo - {name}| < |todo|
  {
    assert (todo - {name}).Keys == todo.Keys - {name};
    assert (map other | other in todo - {name} :: (todo - {name})[other].value)
        == (map other | other in todo :: todo[other].value) - {name};
    OverwriteOne(env, map other | other in todo :: todo[other].value, name);
  }

  lemma ResetOne(env: Env, todo: Overlay, name: string)
    requires name in todo
    ensures Reset(env[name := todo[name].original], todo - {name}) == Reset(env, todo)
    ensures |todo - {name}| < |todo|
  {
    assert (todo - {name}).Keys == todo.Keys - {name};
    assert (map other | other in todo - {name} :: (todo - {name})[other].original)
        == (map other | other in todo :: todo[other].original) - {name};
    OverwriteOne(env, map other | other in todo :: todo[other].original, name);
  }

  lemma OverwriteOne(env: Env, vars: Env, name: string)
    requires name in vars
    ensures env[name := vars[name]] + (vars - {name}) == env + vars
  {
  }

  function Apply(env: Env, overlay: Overlay, op: Op): Overlay {
    match op
    case Set(name, value) => SetVar(env, overlay, name, value)
    case Get(name) => Touch(env, overlay, name)
  }

  function OverlayAfter(env: Env, overlay: Overlay, ops: seq<Op>): Overlay
    decreases |ops|
  {
    if ops == [] then overlay else OverlayAfter(env, Apply(env, overlay, ops[0]), ops[1..])
  }

  function Answers(env: Env, overlay: Overlay, ops: seq<Op>): seq<string>
    decreases |ops|
  {
    if ops == [] then []
    else
      var overlay' := Apply(env, overlay, ops[0]);
      (if ops[0].Get? then [overlay'[ops[0].name].value] else []) + Answers(env, overlay', ops[1..])
  }

  // ---------- many clients, any interleaving of their lines ----------

  /** A client arrives, which sets its PATH, or runs a line. */
  datatype Event = Enter(client: nat) | Line(client: nat, ops: seq<Op>)

  datatype Server = Server(env: Env, overlays: map<nat, Overlay>)

  const PATH := "PATH"
  const DEFAULT_PATH := "bin:."

  function OverlayOf(s: Server, client: nat): Overlay {
    if client in s.overlays then s.overlays[client] else map[]
  }

  function Step(s: Server, e: Event): Server {
    match e
    case Enter(client) => s.(overlays := s.overlays[client := SetVar(s.env, map[], PATH, DEFAULT_PATH)])
    case Line(client, ops) =>
      var loaded := Load(s.env, OverlayOf(s, client));
      var overlay := OverlayAfter(loaded, OverlayOf(s, client), ops);
      Server(Reset(loaded, overlay), s.overlays[client := overlay])
  }

  function Run(env: Env, events: seq<Event>): Server {
    if events == [] then Server(env, map[]) else Step(Run(env, events[..|events| - 1]), events[|events| - 1])
  }

  /** The answers that the last event of a run gives. */
  function LastAnswers(env: Env, events: seq<Event>): seq<string>
    requires events != []
  {
    var s, e := Run(env, events[..|events| - 1]), events[|events| - 1];
    match e
    case Enter(_) => []
    case Line(client, ops) => Answers(Load(s.env, OverlayOf(s, client)), OverlayOf(s, client), ops)
  }

  // ---------- what a client should see, without any loading and resetting ----------

  function LastSet(ops: seq<Op>, name: string, before: string): string {
    if ops == [] then before
    else
      var last := ops[|ops| - 1];
      if last.Set? && last.name == name then last.value else LastSet(ops[..|ops| - 1], name, before)
  }

  /** The last value that the client itself gave the variable since it arrived, or else the global value. */
  function Expected(env: Env, events: seq<Event>, client: nat, name: string): string {
    if events == [] then Var(env, name)
    else
      var before, e := events[..|events| - 1], events[|events| - 1];
      if e.client != client then Expected(env, before, client, name)
      else match e
        case Enter(_) => if name == PATH then DEFAULT_PATH else Var(env, name)
        case Line(_, ops) => LastSet(ops, name, Expected(env, before, client, name))
  }

  function ExpectedAnswers(ops: seq<Op>, k: nat, seen: string -> string): seq<string>
    requires k <= |ops|
  {
    if k == 0 then []
    else ExpectedAnswers(ops, k - 1, seen)
         + (if ops[k - 1].Get? then [LastSet(ops[..k - 1], ops[k - 1].name, seen(ops[k - 1].name))] else [])
  }

  /** What an overlay makes the client see of a variable. */
  function Sees(env: Env, overlay: Overlay, name: string): string {
    if name in overlay then overlay[name].value else Var(env, name)
  }

  /** Every stored original is the global value. */
  ghost predicate Originals(env: Env, overlay: Overlay) {
    forall name | name in overlay :: overlay[name].original == Var(env, name)
  }

  ghost predicate Inv(env: Env, events: seq<Event>) {
    var s := Run(env, events);
    && SameEnv(s.env, env)
    && (forall client: nat :: Originals(env, OverlayOf(s, client)))
    && (forall client: nat, name: string :: Sees(env, OverlayOf(s, client), name) == Expected(env, events, client, name))
  }

  /** Within a line, the process environment is the global one under the client's overlay, as it was when
      the line began; a variable first used in the line still has its global value there. */
  lemma OpKeeps(env: Env, loaded: Env, start: Overlay, overlay: Overlay, op: Op)
    requires Originals(env, overlay) && start.Keys <= overlay.Keys
    requires forall name :: Var(loaded, name) == Sees(env, start, name)
    ensures Originals(env, Apply(loaded, overlay, op)) && start.Keys <= Apply(loaded, overlay, op).Keys
    ensures forall name :: Sees(env, Apply(loaded, overlay, op), name)
                        == if op.Set? && op.name == name then op.value else Sees(env, overlay, name)
  {
  }

  lemma {:induction false} OpsKeep(env: Env, loaded: Env, start: Overlay, overlay: Overlay, ops: seq<Op>)
    requires Originals(env, overlay) && start.Keys <= overlay.Keys
    requires forall name :: Var(loaded, name) == Sees(env, start, name)
    ensures Originals(env, OverlayAfter(loaded, overlay, ops)) && start.Keys <= OverlayAfter(loaded, overlay, ops).Keys
    ensures forall name :: Sees(env, OverlayAfter(loaded, overlay, ops), name) == LastSet(ops, name, Sees(env, overlay, name))
    decreases |ops|
  {
    if ops != [] {
      OpKeeps(env, loaded, start, overlay, ops[0]);
      OpsKeep(env, loaded, start, Apply(loaded, overlay, ops[0]), ops[1..]);
      forall name ensures LastSet(ops, name, Sees(env, overlay, name))
                       == LastSet(ops[1..], name, Sees(env, Apply(loaded, overlay, ops[0]), name)) {
        LastSetFirst(ops, name, Sees(env, overlay, name));
      }
    }
  }

  lemma {:induction false} LastSetFirst(ops: seq<Op>, name: string, before: string)
    requires ops != []
    ensures LastSet(ops, name, before)
         == LastSet(ops[1..], name, if ops[0].Set? && ops[0].name == name then ops[0].value else before)
  {
    var n := |ops| - 1;
    if n == 0 {
      assert ops[1..] == [] && ops[..0] == [];
    } else {
      assert ops[1..][n - 1] == ops[n] && ops[1..][..n - 1] == ops[..n][1..] && ops[..n][0] == ops[0];
      LastSetFirst(ops[..n], name, before);
    }
  }

  lemma LoadedSees(env: Env, now: Env, overlay: Overlay, name: string)
    requires SameEnv(now, env)
    ensures Var(Load(now, overlay), name) == Sees(env, overlay, name)
  {
    assert Var(now, name) == Var(env, name);
  }

  lemma LineKeepsEnv(env: Env, now: Env, overlay: Overlay, ops: seq<Op>)
    requires SameEnv(now, env) && Originals(env, overlay)
    ensures var loaded := Load(now, overlay);
            var overlay' := OverlayAfter(loaded, overlay, ops);
            && SameEnv(Reset(loaded, overlay'), env) && Originals(env, overlay')
            && forall name :: Sees(env, overlay', name) == LastSet(ops, name, Sees(env, overlay, name))
  {
    var loaded := Load(now, overlay);
    forall name ensures Var(loaded, name) == Sees(env, overlay, name) { LoadedSees(env, now, overlay, name); }
    OpsKeep(env, loaded, overlay, overlay, ops);
    var overlay' := OverlayAfter(loaded, overlay, ops);
    forall name ensures Var(Reset(loaded, overlay'), name) == Var(env, name) {
      if name !in overlay' {
        assert name !in overlay;
        assert Var(loaded, name) == Sees(env, overlay, name);
      }
    }
  }

  lemma {:induction false} RunKeepsInv(env: Env, events: seq<Event>)
    ensures Inv(env, events)
  {
    if events != [] {
      var before, e := events[..|events| - 1], events[|events| - 1];
      RunKeepsInv(env, before);
      var s := Run(env, before);
      match e {
        case Enter(client) => EnterKeepsEnv(env, s.env);
        case Line(client, ops) => LineKeepsEnv(env, s.env, OverlayOf(s, client), ops);
      }
      OthersKept(s, e);
      hide Load, Reset, SetVar, OverlayAfter, Originals, Sees, LastSet, SameEnv, OverlayOf;
      forall c: nat ensures Originals(env, OverlayOf(Step(s, e), c)) { }
      forall c: nat, name: string
        ensures Sees(env, OverlayOf(Step(s, e), c), name) == Expected(env, events, c, name)
      {
        assert Sees(env, OverlayOf(s, c), name) == Expected(env, before, c, name);
      }
    }
  }

  lemma OthersKept(s: Server, e: Event)
    ensures forall c: nat | c != e.client :: OverlayOf(Step(s, e), c) == OverlayOf(s, c)
    ensures match e
            case Enter(client) =>
              Step(s, e).env == s.env && OverlayOf(Step(s, e), client) == SetVar(s.env, map[], PATH, DEFAULT_PATH)
            case Line(client, ops) =>
              var loaded := Load(s.env, OverlayOf(s, client));
              && OverlayOf(Step(s, e), client) == OverlayAfter(loaded, OverlayOf(s, client), ops)
              && Step(s, e).env == Reset(loaded, OverlayAfter(loaded, OverlayOf(s, client), ops))
  {
    hide Load, Reset, SetVar, OverlayAfter;
  }

  lemma EnterKeepsEnv(env: Env, now: Env)
    requires SameEnv(now, env)
    ensures Originals(env, SetVar(now, map[], PATH, DEFAULT_PATH))
    ensures forall name :: Sees(env, SetVar(now, map[], PATH, DEFAULT_PATH), name)
                        == if name == PATH then DEFAULT_PATH else Var(env, name)
  {
    assert Var(now, PATH) == Var(env, PATH);
    hide Var;
  }

  /** Isolation: between lines, whatever lines of whatever clients have run, the process environment is the
      initial one, and what each client has stored as original is the global value. */
  lemma BetweenLinesNothingChanged(env: Env, events: seq<Event>, client: nat)
    ensures SameEnv(Run(env, events).env, env) && Originals(env, OverlayOf(Run(env, events), client))
  {
    RunKeepsInv(env, events);
  }

  /** A forked child sees, for every variable, what its own client last set before this line, or the global
      value; what other clients set never shows. */
  lemma ChildrenSeeOwnClient(env: Env, events: seq<Event>, client: nat, name: string)
    ensures var s := Run(env, events);
            Var(Load(s.env, OverlayOf(s, client)), name) == Expected(env, events, client, name)
  {
    RunKeepsInv(env, events);
    var s := Run(env, events);
    LoadedSees(env, s.env, OverlayOf(s, client), name);
  }

  /** The overlay after the first k operations of a line, and what the client then sees. */
  ghost predicate After(env: Env, loaded: Env, start: Overlay, overlay: Overlay, ops: seq<Op>, k: nat, seen: string -> string)
    requires k <= |ops|
  {
    && Originals(env, overlay) && start.Keys <= overlay.Keys
    && overlay == OverlayAfter(loaded, start, ops[..k])
    && forall name :: Sees(env, overlay, name) == LastSet(ops[..k], name, seen(name))
  }

  lemma AfterOne(env: Env, loaded: Env, start: Overlay, overlay: Overlay, ops: seq<Op>, k: nat, seen: string -> string)
    requires k < |ops| && After(env, loaded, start, overlay, ops, k, seen)
    requires forall name :: Var(loaded, name) == Sees(env, start, name)
    ensures After(env, loaded, start, Apply(loaded, overlay, ops[k]), ops, k + 1, seen)
  {
    var op := ops[k];
    OpKeeps(env, loaded, start, overlay, op);
    assert ops[..k + 1] == ops[..k] + [op];
    OverlayAfterAppend(loaded, start, ops[..k], op);
    hide LastSet, Apply, Sees, Originals, OverlayAfter, Var;
    forall name ensures Sees(env, Apply(loaded, overlay, op), name) == LastSet(ops[..k + 1], name, seen(name)) {
      LastSetAppend(ops[..k], op, name, seen(name));
    }
  }

  lemma {:induction false} AnswersAsExpected(env: Env, loaded: Env, start: Overlay, overlay: Overlay, ops: seq<Op>, k: nat,
                                             seen: string -> string)
    requires k <= |ops| && After(env, loaded, start, overlay, ops, k, seen)
    requires forall name :: Var(loaded, name) == Sees(env, start, name)
    ensures ExpectedAnswers(ops, k, seen) + Answers(loaded, overlay, ops[k..]) == ExpectedAnswers(ops, |ops|, seen)
    decreases |ops| - k
  {
    if k < |ops| {
      AfterOne(env, loaded, start, overlay, ops, k, seen);
      OpKeeps(env, loaded, start, overlay, ops[k]);
      AnswerNow(env, loaded, overlay, ops, k, seen(ops[k].name));
      hide LastSet, Answers, Apply, After, Sees, Originals, OverlayAfter, Var;
      AnswersAsExpected(env, loaded, start, Apply(loaded, overlay, ops[k]), ops, k + 1, seen);
      var now := if ops[k].Get? then [LastSet(ops[..k], ops[k].name, seen(ops[k].name))] else [];
      Assoc(ExpectedAnswers(ops, k, seen), now, Answers(loaded, Apply(loaded, overlay, ops[k]), ops[k + 1..]));
      assert ExpectedAnswers(ops, k + 1, seen) == ExpectedAnswers(ops, k, seen) + now;
      hide ExpectedAnswers;
    } else {
      assert ops[k..] == [];
    }
  }

  lemma LastSetAppend(ops: seq<Op>, op: Op, name: string, before: string)
    ensures LastSet(ops + [op], name, before)
         == if op.Set? && op.name == name then op.value else LastSet(ops, name, before)
  {
    assert (ops + [op])[..|ops|] == ops;
  }

  lemma AnswerNow(env: Env, loaded: Env, overlay: Overlay, ops: seq<Op>, k: nat, before: string)
    requires k < |ops|
    requires Sees(env, overlay, ops[k].name) == LastSet(ops[..k], ops[k].name, before)
    requires Sees(env, Apply(loaded, overlay, ops[k]), ops[k].name)
          == if ops[k].Set? then ops[k].value else Sees(env, overlay, ops[k].name)
    ensures Answers(loaded, overlay, ops[k..])
         == (if ops[k].Get? then [LastSet(ops[..k], ops[k].name, before)] else [])
            + Answers(loaded, Apply(loaded, overlay, ops[k]), ops[k + 1..])
  {
    assert ops[k..][0] == ops[k] && ops[k..][1..] == ops[k + 1..];
    assert Answers(loaded, overlay, ops[k..])
        == (if ops[k].Get? then [Apply(loaded, overlay, ops[k])[ops[k].name].value] else [])
           + Answers(loaded, Apply(loaded, overlay, ops[k]), ops[k + 1..]);
  }

  lemma {:induction false} OverlayAfterAppend(loaded: Env, overlay: Overlay, ops: seq<Op>, op: Op)
    ensures OverlayAfter(loaded, overlay, ops + [op]) == Apply(loaded, OverlayAfter(loaded, overlay, ops), op)
    decreases |ops|
  {
    if ops == [] {
      assert [] + [op] == [op] && [op][1..] == [];
    } else {
      assert (ops + [op])[1..] == ops[1..] + [op];
      OverlayAfterAppend(loaded, Apply(loaded, overlay, ops[0]), ops[1..], op);
    }
  }

  /** `printenv` answers with the last value that the same client set, earlier in the line or before it, or
      else with the global value. */
  lemma GetAnswersOwnLastSet(env: Env, events: seq<Event>, client: nat, ops: seq<Op>)
    ensures LastAnswers(env, events + [Line(client, ops)])
         == ExpectedAnswers(ops, |ops|, name => Expected(env, events, client, name))
  {
    var all := events + [Line(client, ops)];
    assert all[..|all| - 1] == events;
    RunKeepsInv(env, events);
    var s := Run(env, events);
    var overlay := OverlayOf(s, client);
    var loaded := Load(s.env, overlay);
    forall name ensures Var(loaded, name) == Sees(env, overlay, name) { LoadedSees(env, s.env, overlay, name); }
    assert ops[..0] == [] && ops[0..] == ops;
    AnswersAsExpected(env, loaded, overlay, overlay, ops, 0, name => Expected(env, events, client, name));
  }

  /** The client neither arrives again nor sets the variable. */
  ghost predicate LeavesAlone(events: seq<Event>, client: nat, name: string) {
    forall e | e in events && e.client == client :: e.Line? && forall op | op in e.ops :: op.Set? ==> op.name != name
  }

  lemma {:induction false} NotSet(ops: seq<Op>, name: string, before: string)
    requires forall op | op in ops :: op.Set? ==> op.name != name
    ensures LastSet(ops, name, before) == before
  {
    if ops != [] {
      assert ops[|ops| - 1] in ops;
      NotSet(ops[..|ops| - 1], name, before);
    }
  }

  lemma {:induction false} StaysExpected(env: Env, before: seq<Event>, events: seq<Event>, client: nat, name: string)
    requires LeavesAlone(events, client, name)
    ensures Expected(env, before + events, client, name) == Expected(env, before, client, name)
  {
    if events == [] {
      assert before + events == before;
    } else {
      var most, e := events[..|events| - 1], events[|events| - 1];
      assert before + events == before + most + [e];
      assert (before + most + [e])[..|before + most|] == before + most;
      assert e in events;
      StaysExpected(env, before, most, client, name);
      if e.client == client {
        NotSet(e.ops, name, Expected(env, before + most, client, name));
      }
    }
  }

  /** Whatever others do and whatever was before, commands of a new client are looked for in `bin` and in the working
      directory until it sets its own PATH. */
  lemma NewClientsPath(env: Env, before: seq<Event>, client: nat, events: seq<Event>)
    requires LeavesAlone(events, client, "PATH")
    ensures var s := Run(env, before + [Enter(client)] + events);
            Var(Load(s.env, OverlayOf(s, client)), "PATH") == "bin:."
  {
    var entered := before + [Enter(client)];
    assert entered[..|entered| - 1] == before;
    assert Expected(env, entered, client, "PATH") == "bin:.";
    StaysExpected(env, entered, events, client, "PATH");
    ChildrenSeeOwnClient(env, entered + events, client, "PATH");
  }
}
