/** What the single-process server did with users and user pipes, as a list of events, and what such a list
    says: who is online, which pipe waits between which two users, and when a list is as it should be. */
module UserPipeHistory {
  import RegistryText

  /** What a stream of a forked command is connected to. */
  datatype Stream = Terminal | Null | File(name: string) | Pipe(id: nat)

  /** A sender and a receiver, by user id. */
  type Key = (nat, nat)

  datatype Event =
    | Entered(id: nat)
    | Left(id: nat)
    | Created(pipe: nat, key: Key)                // `>j` opened a pipe
    | Refused(key: Key)                           // `>j`, but a pipe is waiting already
    | Loaded(pipe: nat, key: Key)                 // `<i` took the waiting pipe
    | Missing(key: Key)                           // `<i`, but no pipe is waiting
    | NoUser(user: nat, id: nat)                  // `>j` or `<i` with an id that nobody has
    | Ran(user: nat, name: string, args: seq<string>)
    | Forked(user: nat, name: string, args: seq<string>, input: Stream, output: Stream, err: Stream)

  function OnlineAfter(before: set<nat>, e: Event): set<nat> {
    match e
    case Entered(id) => before + {id}
    case Left(id) => before - {id}
    case _ => before
  }

  function Online(h: seq<Event>): set<nat> {
    if h == [] then {} else OnlineAfter(Online(h[..|h| - 1]), h[|h| - 1])
  }

  predicate Names(key: Key, id: nat) {
    key.0 == id || key.1 == id
  }

  function WithoutUser(pending: map<Key, nat>, id: nat): map<Key, nat> {
    map key | key in pending && !Names(key, id) :: pending[key]
  }

  function WaitingAfter(before: map<Key, nat>, e: Event): map<Key, nat> {
    match e
    case Created(pipe, key) => before[key := pipe]
    case Loaded(_, key) => before - {key}
    case Left(id) => WithoutUser(before, id)
    case _ => before
  }

  /** The pipes that have been sent and not yet taken, by sender and receiver. */
  function Waiting(h: seq<Event>): map<Key, nat> {
    if h == [] then map[] else WaitingAfter(Waiting(h[..|h| - 1]), h[|h| - 1])
  }

  /** Every user pipe ever opened, and for whom. */
  function Sent(h: seq<Event>): map<nat, Key> {
    if h == [] then map[]
    else
      var before, e := Sent(h[..|h| - 1]), h[|h| - 1];
      if e.Created? then before[e.pipe := e.key] else before
  }

  /** Every user pipe ever taken, and the key under which it was taken. */
  function Received(h: seq<Event>): map<nat, Key> {
    if h == [] then map[]
    else
      var before, e := Received(h[..|h| - 1]), h[|h| - 1];
      if e.Loaded? then before[e.pipe := e.key] else before
  }

  /** Every pipe that was the input of a command. */
  function Read(h: seq<Event>): set<nat> {
    if h == [] then {}
    else
      var before, e := Read(h[..|h| - 1]), h[|h| - 1];
      if e.Forked? && e.input.Pipe? then before + {e.input.id} else before
  }

  /** The pipes that wait for or from a user. */
  function PipesOf(pending: map<Key, nat>, id: nat): set<nat> {
    set key | key in pending && Names(key, id) :: pending[key]
  }

  /** Every pipe that was still waiting when one of its users left. */
  function Abandoned(h: seq<Event>): set<nat> {
    if h == [] then {}
    else
      var before, e := h[..|h| - 1], h[|h| - 1];
      if e.Left? then Abandoned(before) + PipesOf(Waiting(before), e.id) else Abandoned(before)
  }

  function NamesAfter(before: map<nat, string>, e: Event): map<nat, string> {
    match e
    case Entered(id) => before[id := ""]
    case Left(id) => before - {id}
    case Ran(user, name, args) =>
      if name == "name" && user in before && args != [] && args[0] != "" && args[0] !in before.Values then
        before[user := args[0]]
      else before
    case _ => before
  }

  /** The name of each user: what its last successful `name` gave it; a name in use is refused. */
  function NamesOf(h: seq<Event>): map<nat, string> {
    if h == [] then map[] else NamesAfter(NamesOf(h[..|h| - 1]), h[|h| - 1])
  }

  lemma NamedAfter(h: seq<Event>, e: Event)
    ensures NamesOf(h + [e]) == NamesAfter(NamesOf(h), e)
  {
    assert (h + [e])[..|h + [e]| - 1] == h;
  }

  /** Exactly the users online have names, and no two have the same one unless it is empty. */
  lemma {:induction false} NamesDiffer(h: seq<Event>)
    ensures NamesOf(h).Keys == Online(h)
    ensures forall i, j | i in NamesOf(h) && j in NamesOf(h) && NamesOf(h)[i] == NamesOf(h)[j] != "" :: i == j
  {
    if h != [] {
      NamesDiffer(h[..|h| - 1]);
    }
  }

  // ---------- the rules ----------

  /** A command is given a pipe that nobody has read; a user pipe it was given was taken by its own user. */
  ghost predicate InputFits(h: seq<Event>, user: nat, input: Stream) {
    input.Pipe? ==>
      && input.id !in Read(h)
      && (input.id in Sent(h) ==> input.id in Received(h) && Received(h)[input.id].1 == user)
  }

  /** A command writes to a user pipe exactly when its own user has just opened it, and to nowhere when its
      user has just been refused. */
  ghost predicate OutputFits(h: seq<Event>, user: nat, output: Stream) {
    && (output.Pipe? && output.id in Sent(h) ==>
          h != [] && h[|h| - 1].Created? && h[|h| - 1].pipe == output.id && h[|h| - 1].key.0 == user)
    && (h != [] && h[|h| - 1].Created? ==> output == Pipe(h[|h| - 1].pipe))
    && (h != [] && h[|h| - 1].Refused? ==> output == Null)
  }

  /** Event e may follow the history. */
  ghost predicate MayFollow(h: seq<Event>, e: Event) {
    match e
    case Entered(id) => id == RegistryText.LowestFree(Online(h))
    case Left(id) => id in Online(h)
    case Created(pipe, key) => key.0 in Online(h) && key.1 in Online(h) && key !in Waiting(h)
                              && pipe !in Sent(h) && pipe !in Read(h)
    case Refused(key) => key.0 in Online(h) && key.1 in Online(h) && key in Waiting(h)
    case Loaded(pipe, key) => key.0 in Online(h) && key.1 in Online(h) && key in Waiting(h) && Waiting(h)[key] == pipe
    case Missing(key) => key.0 in Online(h) && key.1 in Online(h) && key !in Waiting(h)
    case NoUser(user, id) => user in Online(h) && id !in Online(h)
    case Ran(user, _, _) => user in Online(h)
    case Forked(user, _, _, input, output, err) =>
      && user in Online(h) && InputFits(h, user, input) && OutputFits(h, user, output)
      && (err == Terminal || err == output)
  }

  ghost predicate Legal(h: seq<Event>) {
    forall k: nat | k < |h| :: MayFollow(h[..k], h[k])
  }

  lemma LegalAppend(h: seq<Event>, e: Event)
    requires Legal(h) && MayFollow(h, e)
    ensures Legal(h + [e])
  {
    var all := h + [e];
    forall k: nat | k < |all| ensures MayFollow(all[..k], all[k]) {
      assert all[..k] == h[..k];
      assert k < |h| || h[..k] == h;
    }
  }

  lemma LegalPrefix(h: seq<Event>, k: nat)
    requires Legal(h) && k <= |h|
    ensures Legal(h[..k])
  {
    forall i: nat | i < k ensures MayFollow(h[..k][..i], h[..k][i]) { assert h[..k][..i] == h[..i]; }
  }

  /** How one event changes what a history says. */
  lemma After(h: seq<Event>, e: Event)
    ensures Online(h + [e]) == OnlineAfter(Online(h), e)
    ensures Waiting(h + [e]) == WaitingAfter(Waiting(h), e)
    ensures Sent(h + [e]) == if e.Created? then Sent(h)[e.pipe := e.key] else Sent(h)
    ensures Received(h + [e]) == if e.Loaded? then Received(h)[e.pipe := e.key] else Received(h)
    ensures Read(h + [e]) == if e.Forked? && e.input.Pipe? then Read(h) + {e.input.id} else Read(h)
    ensures Abandoned(h + [e]) == if e.Left? then Abandoned(h) + PipesOf(Waiting(h), e.id) else Abandoned(h)
  {
    assert (h + [e])[..|h + [e]| - 1] == h;
  }

  // ---------- what legal histories promise ----------

  /** A waiting pipe was sent by the one of its two users to the other, both are online, and nobody has taken
      it. */
  lemma {:induction false} WaitingUsersOnline(h: seq<Event>, key: Key)
    requires Legal(h) && key in Waiting(h)
    ensures key.0 in Online(h) && key.1 in Online(h)
    ensures Waiting(h)[key] in Sent(h) && Sent(h)[Waiting(h)[key]] == key && Waiting(h)[key] !in Received(h)
  {
    var before, e := h[..|h| - 1], h[|h| - 1];
    LegalPrefix(h, |h| - 1);
    assert MayFollow(before, e);
    if key in Waiting(before) {
      WaitingUsersOnline(before, key);
    }
    if e.Loaded? {
      WaitingUsersOnline(before, e.key);
    }
    if e.Created? && e.pipe in Received(before) {
      ReceivedWasSent(before, e.pipe);
    }
  }

  lemma {:induction false} ReceivedWasSent(h: seq<Event>, pipe: nat)
    requires Legal(h) && pipe in Received(h)
    ensures pipe in Sent(h) && Sent(h)[pipe] == Received(h)[pipe]
  {
    var before, e := h[..|h| - 1], h[|h| - 1];
    LegalPrefix(h, |h| - 1);
    assert MayFollow(before, e);
    if pipe in Received(before) {
      ReceivedWasSent(before, pipe);
    }
    if e.Loaded? {
      WaitingUsersOnline(before, e.key);
    }
  }

  /** The pipe was opened for the key at event k, and since then it was not taken and neither user left. */
  ghost predicate StillWaiting(h: seq<Event>, pipe: nat, key: Key, k: nat) {
    && k < |h| && h[k] == Created(pipe, key)
    && forall i | k < i < |h| :: h[i] != Loaded(pipe, key) && h[i] != Left(key.0) && h[i] != Left(key.1)
  }

  /** One more event: the pipe still waits unless the event takes it or is the leaving of one of its users. */
  lemma StillWaitingStep(h: seq<Event>, e: Event, pipe: nat, key: Key, k: nat)
    ensures StillWaiting(h + [e], pipe, key, k) <==>
            (k == |h| && e == Created(pipe, key))
            || (StillWaiting(h, pipe, key, k) && e != Loaded(pipe, key) && e != Left(key.0) && e != Left(key.1))
  {
    var all := h + [e];
    if StillWaiting(all, pipe, key, k) && k < |h| {
      assert all[|h|] == e;
      forall i | k < i < |h| ensures h[i] != Loaded(pipe, key) && h[i] != Left(key.0) && h[i] != Left(key.1) {
        assert all[i] == h[i];
      }
    }
  }

  lemma WaitingStep(h: seq<Event>, e: Event, key: Key, pipe: nat)
    requires MayFollow(h, e)
    ensures key in Waiting(h + [e]) && Waiting(h + [e])[key] == pipe <==>
            e == Created(pipe, key)
            || (key in Waiting(h) && Waiting(h)[key] == pipe
                && e != Loaded(pipe, key) && e != Left(key.0) && e != Left(key.1))
  {
    After(h, e);
    hide InputFits, OutputFits;
  }

  lemma LastLegal(h: seq<Event>)
    requires Legal(h) && h != []
    ensures Legal(h[..|h| - 1]) && MayFollow(h[..|h| - 1], h[|h| - 1]) && h[..|h| - 1] + [h[|h| - 1]] == h
  {
    LegalPrefix(h, |h| - 1);
  }

  lemma NothingWaits(h: seq<Event>, key: Key, pipe: nat)
    requires h == []
    ensures key !in Waiting(h) && forall k: nat :: !StillWaiting(h, pipe, key, k)
  {
  }

  /** What waits between two users is exactly what was opened between them and since then neither taken nor
      closed by the leaving of one of them. */
  lemma {:induction false} WaitingMeaning(h: seq<Event>, key: Key, pipe: nat)
    requires Legal(h)
    ensures key in Waiting(h) && Waiting(h)[key] == pipe <==> exists k: nat :: StillWaiting(h, pipe, key, k)
  {
    hide StillWaiting, MayFollow, Waiting, Legal;
    if h == [] {
      NothingWaits(h, key, pipe);
    } else {
      var before, e := h[..|h| - 1], h[|h| - 1];
      LastLegal(h);
      WaitingMeaning(before, key, pipe);
      WaitingStep(before, e, key, pipe);
      forall k: nat { StillWaitingStep(before, e, pipe, key, k); }
      assert e == Created(pipe, key) ==> StillWaiting(h, pipe, key, |before|);
    }
  }

  lemma {:induction false} Remembers(h: seq<Event>, k: nat)
    requires k < |h|
    ensures h[k].Created? ==> h[k].pipe in Sent(h)
    ensures h[k].Loaded? ==> h[k].pipe in Received(h)
    ensures h[k].Forked? && h[k].input.Pipe? ==> h[k].input.id in Read(h)
  {
    if k < |h| - 1 {
      Remembers(h[..|h| - 1], k);
    }
  }

  lemma {:induction false} SentForever(h: seq<Event>, k: nat, pipe: nat)
    requires Legal(h) && k <= |h| && pipe in Sent(h[..k])
    ensures pipe in Sent(h) && Sent(h)[pipe] == Sent(h[..k])[pipe]
  {
    if k == |h| {
      assert h[..k] == h;
    } else {
      var before, e := h[..|h| - 1], h[|h| - 1];
      LastLegal(h);
      assert before[..k] == h[..k];
      SentForever(before, k, pipe);
      After(before, e);
      hide Legal, InputFits, OutputFits, Sent, Waiting, Online, Read;
      assert e.Created? ==> e.pipe !in Sent(before);
    }
  }

  /** A pipe is taken at most once. */
  lemma TakenAtMostOnce(h: seq<Event>, k: nat, l: nat)
    requires Legal(h) && k < l < |h| && h[k].Loaded? && h[l].Loaded?
    ensures h[k].pipe != h[l].pipe
  {
    assert MayFollow(h[..l], h[l]);
    LegalPrefix(h, l);
    WaitingUsersOnline(h[..l], h[l].key);
    Remembers(h[..l], k);
  }

  /** While a pipe from i to j waits, every further `>j` of i is refused, and while none waits, none is. */
  lemma RefusedWhileWaiting(h: seq<Event>, l: nat)
    requires Legal(h) && l < |h| && (h[l].Created? || h[l].Refused?)
    ensures h[l].Refused? <==> exists pipe: nat, k: nat :: StillWaiting(h[..l], pipe, h[l].key, k)
  {
    assert MayFollow(h[..l], h[l]);
    LegalPrefix(h, l);
    var key := h[l].key;
    if h[l].Refused? {
      WaitingMeaning(h[..l], key, Waiting(h[..l])[key]);
    }
    if pipe: nat, k: nat :| StillWaiting(h[..l], pipe, key, k) {
      WaitingMeaning(h[..l], key, pipe);
    }
  }

  /** Whoever enters, under whatever recycled id, finds no pipe waiting for it or from it. */
  lemma NewcomerStartsClean(h: seq<Event>, k: nat, key: Key)
    requires Legal(h) && k < |h| && h[k].Entered? && Names(key, h[k].id)
    ensures key !in Waiting(h[..k]) && key !in Waiting(h[..k + 1])
    ensures forall j: nat | 1 <= j < h[k].id :: j in Online(h[..k])
  {
    assert MayFollow(h[..k], h[k]);
    LegalPrefix(h, k);
    if key in Waiting(h[..k]) {
      WaitingUsersOnline(h[..k], key);
    }
    assert h[..k + 1] == h[..k] + [h[k]];
    After(h[..k], h[k]);
  }

  /** No two commands read the same pipe, whatever it is for. */
  lemma ReadAtMostOnce(h: seq<Event>, r: nat, r': nat, pipe: nat)
    requires Legal(h) && r < r' < |h| && h[r].Forked? && h[r'].Forked? && h[r].input == Pipe(pipe)
    ensures h[r'].input != Pipe(pipe)
  {
    Remembers(h[..r'], r);
    assert MayFollow(h[..r'], h[r']);
  }

  /** A user pipe that a command reads was sent to that command's user, who took it, and no other command
      reads it. */
  lemma ReadByReceiver(h: seq<Event>, c: nat, r: nat)
    requires Legal(h) && c < |h| && h[c].Created?
    requires r < |h| && h[r].Forked? && h[r].input == Pipe(h[c].pipe)
    ensures h[r].user == h[c].key.1
    ensures c < r && h[c].pipe in Received(h[..r])
    ensures forall r': nat | r' < |h| && r' != r && h[r'].Forked? :: h[r'].input != Pipe(h[c].pipe)
  {
    var pipe := h[c].pipe;
    forall r': nat | r' < |h| && r' != r && h[r'].Forked? ensures h[r'].input != Pipe(pipe) {
      if r < r' {
        ReadAtMostOnce(h, r, r', pipe);
      } else if h[r'].input == Pipe(pipe) {
        ReadAtMostOnce(h, r', r, pipe);
      }
    }
    if c < r {
      ReaderTookIt(h, c, r);
    } else {
      assert MayFollow(h[..c], h[c]);
      Remembers(h[..c], r);
      assert false;
    }
  }

  lemma ReaderTookIt(h: seq<Event>, c: nat, r: nat)
    requires Legal(h) && c < r < |h| && h[c].Created? && h[r].Forked? && h[r].input == Pipe(h[c].pipe)
    ensures h[r].user == h[c].key.1 && h[c].pipe in Received(h[..r])
  {
    hide Sent, Received, Online, Waiting, Read;
    var pipe := h[c].pipe;
    assert MayFollow(h[..r], h[r]);
    LegalPrefix(h, r);
    hide Legal;
    Remembers(h[..r], c);
    ReceivedWasSent(h[..r], pipe);
    assert h[..c + 1] == h[..c] + [h[c]];
    After(h[..c], h[c]);
    assert h[..r][..c + 1] == h[..c + 1];
    SentForever(h[..r], c + 1, pipe);
  }

  // ---------- who writes to a pipe ----------

  /** Every pipe that was the output of a command. */
  function Outputs(h: seq<Event>): set<nat> {
    if h == [] then {}
    else
      var before, e := Outputs(h[..|h| - 1]), h[|h| - 1];
      if e.Forked? && e.output.Pipe? then before + {e.output.id} else before
  }

  function WritersAfter(before: map<nat, nat>, e: Event): map<nat, nat> {
    match e
    case Forked(user, _, _, _, Pipe(p), _) => before[p := user]
    case Left(id) => map p | p in before && before[p] != id :: before[p]
    case _ => before
  }

  /** The pipes whose writer is still there, and the writer. */
  function Writers(h: seq<Event>): map<nat, nat> {
    if h == [] then map[] else WritersAfter(Writers(h[..|h| - 1]), h[|h| - 1])
  }

  ghost predicate IsWriter(h: seq<Event>, pipe: nat, user: nat) {
    pipe in Writers(h) && Writers(h)[pipe] == user
  }

  /** A pipe that is opened for a user has not been written to; a command writes to no pipe of others; and unless
      a user has sent it, the pipe it reads is one that it has written to itself. */
  ghost predicate MayWrite(h: seq<Event>, e: Event) {
    match e
    case Created(pipe, _) => pipe !in Outputs(h)
    case Forked(user, _, _, input, output, _) =>
      && (output.Pipe? && output.id in Outputs(h) ==> IsWriter(h, output.id, user))
      && (input.Pipe? && input.id !in Sent(h) ==> IsWriter(h, input.id, user))
    case _ => true
  }

  /** What different users write is never mixed in one pipe, and nobody reads what others wrote but user pipes. */
  ghost predicate Unmixed(h: seq<Event>) {
    forall k: nat | k < |h| :: MayWrite(h[..k], h[k])
  }

  lemma UnmixedAppend(h: seq<Event>, e: Event)
    requires Unmixed(h) && MayWrite(h, e)
    ensures Unmixed(h + [e])
  {
    hide MayWrite;
    var all := h + [e];
    forall k: nat | k < |all| ensures MayWrite(all[..k], all[k]) {
      assert all[..k] == h[..k];
      assert k < |h| || h[..k] == h;
    }
  }

  lemma UnmixedPrefix(h: seq<Event>, k: nat)
    requires Unmixed(h) && k <= |h|
    ensures Unmixed(h[..k])
  {
    hide MayWrite;
    forall i: nat | i < k ensures MayWrite(h[..k][..i], h[..k][i]) { assert h[..k][..i] == h[..i]; }
  }

  lemma WrittenAfter(h: seq<Event>, e: Event)
    ensures Outputs(h + [e]) == if e.Forked? && e.output.Pipe? then Outputs(h) + {e.output.id} else Outputs(h)
    ensures Writers(h + [e]) == WritersAfter(Writers(h), e)
  {
    assert (h + [e])[..|h + [e]| - 1] == h;
  }

  /** Event k is a command of the user, who has not left since. */
  ghost predicate WritesStill(h: seq<Event>, k: nat, user: nat) {
    k < |h| && h[k].Forked? && h[k].user == user && forall i | k < i < |h| :: h[i] != Left(user)
  }

  lemma {:induction false} WriterStands(h: seq<Event>, k: nat, pipe: nat)
    requires Unmixed(h) && k < |h| && h[k].Forked? && h[k].output == Pipe(pipe)
    ensures pipe in Outputs(h) && (pipe in Writers(h) ==> WritesStill(h, k, Writers(h)[pipe]))
  {
    var before, e := h[..|h| - 1], h[|h| - 1];
    assert h == before + [e];
    WrittenAfter(before, e);
    if k < |h| - 1 {
      UnmixedPrefix(h, |h| - 1);
      assert MayWrite(before, e);
      hide Unmixed, Outputs, Writers;
      WriterStands(before, k, pipe);
    }
  }

  lemma {:induction false} WriterHasWritten(h: seq<Event>, pipe: nat) returns (k: nat)
    requires pipe in Writers(h)
    ensures k < |h| && h[k].Forked? && h[k].user == Writers(h)[pipe] && h[k].output == Pipe(pipe)
  {
    var before, e := h[..|h| - 1], h[|h| - 1];
    if e.Forked? && e.output == Pipe(pipe) {
      k := |h| - 1;
    } else {
      k := WriterHasWritten(before, pipe);
    }
  }

  /** What a command reads from a pipe that no user sent was written to by its own user's earlier commands, by at
      least one and by no others, and the user has not left since the first of them. */
  lemma ReadsOwnWrites(h: seq<Event>, r: nat, pipe: nat) returns (k: nat)
    requires Unmixed(h) && r < |h| && h[r].Forked? && h[r].input == Pipe(pipe) && pipe !in Sent(h[..r])
    ensures k < r && h[k].Forked? && h[k].output == Pipe(pipe)
    ensures forall w | 0 <= w < r && h[w].Forked? && h[w].output == Pipe(pipe) ::
              h[w].user == h[r].user && forall i | w < i < r :: h[i] != Left(h[r].user)
  {
    UnmixedPrefix(h, r);
    assert MayWrite(h[..r], h[r]);
    k := WriterHasWritten(h[..r], pipe);
    forall w | 0 <= w < r && h[w].Forked? && h[w].output == Pipe(pipe)
      ensures h[w].user == h[r].user && forall i | w < i < r :: h[i] != Left(h[r].user)
    {
      WriterStands(h[..r], w, pipe);
      assert WritesStill(h[..r], w, h[r].user);
      forall i | w < i < r ensures h[i] != Left(h[r].user) { assert h[..r][i] == h[i]; }
    }
  }

  /** Two commands that write to the same pipe are the same user's, who has not left in between. */
  lemma OneWriter(h: seq<Event>, k: nat, l: nat)
    requires Unmixed(h) && k < l < |h| && h[k].Forked? && h[l].Forked?
    requires h[k].output.Pipe? && h[l].output == h[k].output
    ensures h[l].user == h[k].user && forall i | k < i < l :: h[i] != Left(h[k].user)
  {
    UnmixedPrefix(h, l);
    WriterStands(h[..l], k, h[k].output.id);
    assert MayWrite(h[..l], h[l]);
    assert WritesStill(h[..l], k, h[l].user);
    forall i | k < i < l ensures h[i] != Left(h[k].user) { assert h[..l][i] == h[i]; }
  }

  /** At most one command ever writes to a user pipe: the one its sender ran when the pipe was opened. */
  lemma WrittenBySender(h: seq<Event>, c: nat, w: nat)
    requires Legal(h) && Unmixed(h) && c < |h| && h[c].Created?
    requires w < |h| && h[w].Forked? && h[w].output == Pipe(h[c].pipe)
    ensures w == c + 1 && h[w].user == h[c].key.0
  {
    assert MayWrite(h[..c], h[c]);
    UnmixedPrefix(h, c);
    if w < c {
      WriterStands(h[..c], w, h[c].pipe);
    } else {
      WrittenAtOnce(h, c, w);
    }
  }

  lemma WrittenAtOnce(h: seq<Event>, c: nat, w: nat)
    requires Legal(h) && c < |h| && h[c].Created?
    requires c < w < |h| && h[w].Forked? && h[w].output == Pipe(h[c].pipe)
    ensures w == c + 1 && h[w].user == h[c].key.0
  {
    var pipe := h[c].pipe;
    Remembers(h[..w], c);
    assert MayFollow(h[..w], h[w]);
    assert h[..w][w - 1] == h[w - 1] == Created(pipe, h[w - 1].key);
    if c < w - 1 {
      assert MayFollow(h[..w - 1], h[w - 1]);
      Remembers(h[..w - 1], c);
    }
  }

  // ---------- ids stay small ----------

  function Peak(h: seq<Event>): nat {
    if h == [] then 0
    else
      var before, now := Peak(h[..|h| - 1]), |Online(h)|;
      if now > before then now else before
  }

  /** No id ever exceeds the largest number of users that were online at one time. */
  lemma {:induction false} IdsWithinPeak(h: seq<Event>, id: nat)
    requires Legal(h) && id in Online(h)
    ensures 1 <= id <= Peak(h)
  {
    var before, e := h[..|h| - 1], h[|h| - 1];
    LastLegal(h);
    if id in Online(before) {
      IdsWithinPeak(before, id);
    } else {
      assert e == Entered(id) && Online(h) == Online(before) + {id};
    }
  }
}
