/** The message queue of the multi-process server: its text in shared memory, and the pass in which a
    client's message process handles what is addressed to it. */
module Messages {
  import opened Text
  import opened SharedRegistry

  datatype Message = Message(pid: nat, mtype: string, value: string)

  // ---------- the queue as text ----------

  function PrintMessage(m: Message): string {
    Decimal(m.pid) + (" " + (m.mtype + (" " + m.value)))
  }

  function PrintQueue(q: seq<Message>): string {
    if q == [] then "" else PrintMessage(q[0]) + ("\n" + PrintQueue(q[1..]))
  }

  /** `line >> pid >> type >> ws`, and the rest of the line as the value. Without a number in front the first
      extraction fails, and so does all that follows it; the pid is then 0, except in an empty line, where it
      keeps the stray value of a variable that was never set. */
  function ReadMessage(line: string, stray: nat): Message {
    var s1 := SkipSpace(line);
    if s1 == "" then Message(stray, "", "")
    else if !IsDigit(s1[0]) then Message(0, "", "")
    else
      var s2 := SkipSpace(AfterDigits(s1));
      Message(ReadNat(s1), Word(s2), SkipSpace(AfterWord(s2)))
  }

  /** The queue that a reader may find in these lines: one message per line, stray pids being any. */
  ghost predicate ReadFrom(lines: seq<string>, q: seq<Message>) {
    |q| == |lines| && forall i | 0 <= i < |q| :: q[i] == ReadMessage(lines[i], q[i].pid)
  }

  ghost predicate QueueOf(text: string, q: seq<Message>) {
    ReadFrom(Lines(text), q)
  }

  /** The type is one word, and the value is one line that does not start with whitespace. */
  predicate Printable(m: Message) {
    IsWord(m.mtype) && OneLine(m.value) && (m.value != "" ==> !IsSpace(m.value[0]))
  }

  /** A printable message, or one of nothing but a pid. */
  predicate ReadsBack(m: Message) {
    Printable(m) || (m.mtype == "" && m.value == "")
  }

  predicate AllReadBack(q: seq<Message>) {
    forall i | 0 <= i < |q| :: ReadsBack(q[i])
  }

  lemma ReadPrinted(m: Message, stray: nat)
    requires Printable(m)
    ensures ReadMessage(PrintMessage(m), stray) == m
  {
    var r := m.mtype + (" " + m.value);
    ReadBack(m.mtype, " " + m.value);
    NumberField(m.pid, " " + r);
    OneSpace(r);
    OneSpace(m.value);
    hide Decimal, SkipSpace, Word, AfterWord, LeadingDigits, ReadNat, AfterDigits;
    var line := Decimal(m.pid) + (" " + r);
    assert PrintMessage(m) == line && SkipSpace(line) == line;
    assert line[0] == Decimal(m.pid)[0];
    assert IsDigit(Decimal(m.pid)[0]);
  }

  lemma PrintedOneLine(m: Message)
    requires NoSpace(m.mtype) && OneLine(m.value)
    ensures OneLine(PrintMessage(m))
  {
    assert forall s: string | NoSpace(s) :: OneLine(s);
    assert AllDigits(Decimal(m.pid));
    assert forall s: string | AllDigits(s) :: NoSpace(s);
  }

  lemma ReadBare(pid: nat, stray: nat)
    ensures ReadMessage(PrintMessage(Message(pid, "", "")), stray) == Message(pid, "", "")
  {
    var line := Decimal(pid) + "  ";
    assert PrintMessage(Message(pid, "", "")) == line;
    NumberField(pid, "  ");
    assert line[0] == Decimal(pid)[0] && IsDigit(Decimal(pid)[0]);
    assert "  "[1..] == " " && " "[1..] == "";
    assert SkipSpace("  ") == SkipSpace(" ") == "";
    hide Decimal, LeadingDigits, ReadNat, AfterDigits;
  }

  lemma ReadAgain(m: Message, stray: nat)
    requires ReadsBack(m)
    ensures OneLine(PrintMessage(m)) && ReadMessage(PrintMessage(m), stray) == m
  {
    hide PrintMessage, ReadMessage;
    PrintedOneLine(m);
    if Printable(m) {
      ReadPrinted(m, stray);
    } else {
      ReadBare(m.pid, stray);
    }
  }

  // ---------- which queues read back ----------

  lemma PrintedFirst(q: seq<Message>)
    requires q != []
    ensures PrintQueue(q) == PrintMessage(q[0]) + ("\n" + PrintQueue(q[1..]))
  {
  }

  /** The first line of a text that has more than one, and the rest. */
  lemma FirstLine(a: string) returns (l: string, b: string)
    requires !OneLine(a)
    ensures OneLine(l) && a == l + ("\n" + b)
  {
    l := Line(a);
    assert l != a;
    b := a[|l| + 1..];
  }

  lemma BeforeRest(l: string, b: string, rest: string)
    ensures (l + ("\n" + b)) + ("\n" + rest) == l + ("\n" + (b + ("\n" + rest)))
  {
  }

  /** A text in front of a newline makes at least one line, and more than one if it has newlines of its own. */
  lemma {:induction false} LinesBefore(a: string, rest: string)
    ensures |Lines(a + ("\n" + rest))| >= 1 + |Lines(rest)|
    ensures |Lines(a + ("\n" + rest))| == 1 + |Lines(rest)| <==> OneLine(a)
    decreases |a|
  {
    hide Lines, OneLine;
    if OneLine(a) {
      LinesOf(a, rest);
    } else {
      var l, b := FirstLine(a);
      LinesBefore(b, rest);
      BeforeRest(l, b, rest);
      LinesOf(l, b + ("\n" + rest));
    }
  }

  /** A printed queue has a line for every message, and no more exactly when every print is one line. */
  lemma {:induction false} LinesOfQueue(q: seq<Message>)
    ensures |Lines(PrintQueue(q))| >= |q|
    ensures |Lines(PrintQueue(q))| == |q| <==> forall i | 0 <= i < |q| :: OneLine(PrintMessage(q[i]))
  {
    hide PrintMessage, Lines, OneLine;
    if q != [] {
      PrintedFirst(q);
      hide PrintQueue;
      LinesOfQueue(q[1..]);
      LinesBefore(PrintMessage(q[0]), PrintQueue(q[1..]));
      assert forall i | 1 <= i < |q| :: q[i] == q[1..][i - 1];
      assert forall i | 0 <= i < |q| - 1 :: q[1..][i] == q[i + 1];
    } else {
      NoLines();
    }
  }

  lemma NoLines()
    ensures Lines(PrintQueue([])) == []
  {
  }

  lemma {:induction false} PrintedLines(q: seq<Message>)
    requires forall i | 0 <= i < |q| :: OneLine(PrintMessage(q[i]))
    ensures |Lines(PrintQueue(q))| == |q|
    ensures forall i | 0 <= i < |q| :: Lines(PrintQueue(q))[i] == PrintMessage(q[i])
  {
    hide PrintMessage, Lines, OneLine;
    if q != [] {
      PrintedFirst(q);
      hide PrintQueue;
      LinesOf(PrintMessage(q[0]), PrintQueue(q[1..]));
      PrintedLines(q[1..]);
    } else {
      NoLines();
    }
  }

  /** A message that is one printed line and is read from it has a word and a value in place, or neither. */
  lemma FromItsLine(m: Message, stray: nat)
    requires OneLine(PrintMessage(m)) && ReadMessage(PrintMessage(m), stray) == m
    ensures ReadsBack(m)
  {
    var line := PrintMessage(m);
    var s1 := SkipSpace(line);
    if s1 != "" && IsDigit(s1[0]) {
      var s2 := SkipSpace(AfterDigits(s1));
      assert m.mtype == Word(s2) && m.value == SkipSpace(AfterWord(s2));
      assert NoSpace(m.mtype);
      ValueInLine(m);
      if m.mtype == "" {
        assert s2 == "";
      }
    }
  }

  lemma ValueInLine(m: Message)
    requires OneLine(PrintMessage(m))
    ensures OneLine(m.value)
  {
    var before := Decimal(m.pid) + (" " + (m.mtype + " "));
    assert PrintMessage(m) == before + m.value;
    forall i | 0 <= i < |m.value| ensures m.value[i] != '\n' {
      assert PrintMessage(m)[|before| + i] == m.value[i];
    }
  }

  /** From the print of such a queue that queue is read and no other, whatever stray value a pid might have. */
  lemma ReadOfPrint(q: seq<Message>, r: seq<Message>)
    requires AllReadBack(q)
    ensures QueueOf(PrintQueue(q), r) <==> r == q
  {
    hide PrintMessage, ReadMessage, ReadsBack, OneLine, Lines, PrintQueue;
    forall i | 0 <= i < |q| ensures OneLine(PrintMessage(q[i])) { ReadAgain(q[i], 0); }
    forall i, stray: nat | 0 <= i < |q| ensures ReadMessage(PrintMessage(q[i]), stray) == q[i] {
      ReadAgain(q[i], stray);
    }
    PrintedLines(q);
  }

  /** Round trip: a queue reads back from its print if and only if each of its messages has a one-word type and
      a one-line value that does not start with whitespace, or neither a type nor a value. */
  lemma ReadsBackIff(q: seq<Message>)
    ensures QueueOf(PrintQueue(q), q) <==> AllReadBack(q)
  {
    hide PrintMessage, ReadMessage, ReadsBack, OneLine, Lines, PrintQueue;
    if AllReadBack(q) {
      ReadOfPrint(q, q);
    } else if QueueOf(PrintQueue(q), q) {
      LinesOfQueue(q);
      PrintedLines(q);
      forall i | 0 <= i < |q| ensures ReadsBack(q[i]) {
        FromItsLine(q[i], q[i].pid);
      }
    }
  }

  lemma ReadEmpty(stray: nat)
    ensures ReadMessage("", stray) == Message(stray, "", "")
  {
  }

  /** A value that ends in a newline leaves an empty line behind, and what is read from the two lines is the
      message without the newline and one more, without type and value and with any pid at all. */
  lemma TrailingNewline(m: Message, r: seq<Message>)
    requires Printable(m)
    ensures QueueOf(PrintQueue([m.(value := m.value + "\n")]), r) <==>
              |r| == 2 && r[0] == m && r[1].mtype == "" && r[1].value == ""
  {
    PrintedOneLine(m);
    hide PrintQueue, PrintMessage, Lines, ReadMessage, Printable, ReadFrom;
    var p := PrintMessage(m);
    TwoLines(p);
    PrintWithNewline(m);
    if |r| == 2 {
      ReadPrinted(m, r[0].pid);
      ReadEmpty(r[1].pid);
    }
    ReadTwo(p, "", r);
  }

  lemma ReadTwo(a: string, b: string, r: seq<Message>)
    ensures ReadFrom([a, b], r) <==> |r| == 2 && r[0] == ReadMessage(a, r[0].pid) && r[1] == ReadMessage(b, r[1].pid)
  {
    hide ReadMessage;
    assert [a, b][0] == a && [a, b][1] == b;
  }

  lemma PrintWithNewline(m: Message)
    ensures PrintQueue([m.(value := m.value + "\n")]) == PrintMessage(m) + ("\n" + ("" + ("\n" + "")))
  {
    var m' := m.(value := m.value + "\n");
    assert [m'][1..] == [];
    assert PrintMessage(m') == PrintMessage(m) + "\n";
  }

  lemma TwoLines(p: string)
    requires OneLine(p)
    ensures Lines(p + ("\n" + ("" + ("\n" + "")))) == [p, ""]
  {
    LinesOf(p, "" + ("\n" + ""));
    LinesOf("", "");
  }

  // ---------- the payload of the user-pipe messages ----------

  function Find(s: string, c: char): (i: nat)
    ensures i <= |s| && c !in s[..i] && (i < |s| ==> s[i] == c)
  {
    if s == "" || s[0] == c then 0 else 1 + Find(s[1..], c)
  }

  lemma {:induction false} FindAt(s: string, c: char, k: nat)
    requires k < |s| && s[k] == c && forall j | 0 <= j < k :: s[j] != c
    ensures Find(s, c) == k
  {
    if k > 0 {
      FindAt(s[1..], c, k - 1);
    }
  }

  function IdPair(from: nat, to: nat): string {
    Decimal(from) + ("_" + Decimal(to))
  }

  /** `stoi(value.substr(0, value.find("_")))` and `stoi(value.substr(value.find("_") + 1))`. */
  function DecodePair(value: string): (nat, nat)
    requires '_' in value
  {
    var i := Find(value, '_');
    assert i < |value|;
    (ReadNat(SkipSpace(value[..i])), ReadNat(SkipSpace(value[i + 1..])))
  }

  lemma ReadDecimal(n: nat)
    ensures ReadNat(SkipSpace(Decimal(n))) == n
  {
    ReadNatOf(n, "");
    assert Decimal(n) + "" == Decimal(n);
  }

  lemma FoundUnderscore(d: string, rest: string)
    requires AllDigits(d)
    ensures var s := d + ("_" + rest); '_' in s && Find(s, '_') == |d| && s[..|d|] == d && s[|d| + 1..] == rest
  {
    var s := d + ("_" + rest);
    assert s[|d|] == '_';
    assert forall k | 0 <= k < |d| :: s[k] == d[k] && IsDigit(d[k]);
    FindAt(s, '_', |d|);
  }

  lemma PairRoundTrip(from: nat, to: nat)
    ensures '_' in IdPair(from, to) && DecodePair(IdPair(from, to)) == (from, to)
  {
    hide Decimal, ReadNat, SkipSpace, Find;
    FoundUnderscore(Decimal(from), Decimal(to));
    ReadDecimal(from);
    ReadDecimal(to);
  }

  // ---------- one pass over the queue ----------

  /** The messages for a process, up to and including the first that tells it to exit. */
  function Handled(q: seq<Message>, pid: nat): (h: seq<Message>)
    ensures |h| <= |q|
    ensures forall i | 0 <= i < |h| :: h[i].pid == pid
  {
    if q == [] then []
    else if q[0].pid != pid then Handled(q[1..], pid)
    else if q[0].mtype == "exit" then [q[0]]
    else [q[0]] + Handled(q[1..], pid)
  }

  function OwnMessages(q: seq<Message>, pid: nat): seq<Message> {
    if q == [] then [] else (if q[0].pid == pid then [q[0]] else []) + OwnMessages(q[1..], pid)
  }

  /** A process handles all its messages, and none behind the first `exit` for it. */
  lemma {:induction false} HandledUpToExit(q: seq<Message>, pid: nat, value: string, behind: seq<Message>)
    requires forall i | 0 <= i < |q| && q[i].pid == pid :: q[i].mtype != "exit"
    ensures Handled(q, pid) == OwnMessages(q, pid)
    ensures var last := Message(pid, "exit", value);
            Handled(q + ([last] + behind), pid) == OwnMessages(q, pid) + [last]
  {
    var more := [Message(pid, "exit", value)] + behind;
    if q == [] {
      assert q + more == more;
    } else {
      assert (q + more)[1..] == q[1..] + more;
      HandledUpToExit(q[1..], pid, value, behind);
    }
  }

  predicate ToldToExit(q: seq<Message>, pid: nat) {
    exists i | 0 <= i < |q| :: q[i].pid == pid && q[i].mtype == "exit"
  }

  lemma NotTold(pid: nat)
    ensures !ToldToExit([], pid)
  {
  }

  lemma ToldStep(q: seq<Message>, n: nat, pid: nat)
    requires n < |q|
    ensures ToldToExit(q[..n + 1], pid) <==> ToldToExit(q[..n], pid) || (q[n].pid == pid && q[n].mtype == "exit")
    ensures q[n].pid == pid && q[n].mtype == "exit" ==> ToldToExit(q, pid)
  {
    assert forall i | 0 <= i < n :: q[..n][i] == q[i] == q[..n + 1][i];
    assert q[..n + 1][n] == q[n];
  }

  /** The queue without the messages that were handled. */
  function Remaining(q: seq<Message>, pid: nat): seq<Message> {
    if q == [] then []
    else if q[0].pid != pid then [q[0]] + Remaining(q[1..], pid)
    else if q[0].mtype == "exit" then q[1..]
    else Remaining(q[1..], pid)
  }

  function Own(q: seq<Message>, pid: nat): nat {
    if q == [] then 0 else (if q[0].pid == pid then 1 else 0) + Own(q[1..], pid)
  }

  lemma {:induction false} OwnSplit(a: seq<Message>, b: seq<Message>, pid: nat)
    ensures Own(a + b, pid) == Own(a, pid) + Own(b, pid)
  {
    if a == [] {
      assert a + b == b;
    } else {
      assert (a + b)[1..] == a[1..] + b;
      OwnSplit(a[1..], b, pid);
    }
  }

  lemma {:induction false} OwnAll(q: seq<Message>, pid: nat)
    ensures Own(q, pid) <= |q|
    ensures Own(q, pid) == |q| <==> forall i | 0 <= i < |q| :: q[i].pid == pid
  {
    if q != [] {
      OwnAll(q[1..], pid);
      assert forall i | 1 <= i < |q| :: q[i] == q[1..][i - 1];
    }
  }

  lemma {:induction false} RemainingCounts(q: seq<Message>, pid: nat)
    ensures |Remaining(q, pid)| == |q| - |Handled(q, pid)|
    ensures Own(Remaining(q, pid), pid) == Own(q, pid) - |Handled(q, pid)|
  {
    if q != [] {
      RemainingCounts(q[1..], pid);
      if q[0].pid != pid {
        assert Remaining(q, pid)[1..] == Remaining(q[1..], pid);
      }
    }
  }

  lemma {:induction false} NothingHandled(q: seq<Message>, pid: nat)
    requires Handled(q, pid) == []
    ensures Remaining(q, pid) == q
  {
    if q != [] {
      NothingHandled(q[1..], pid);
    }
  }

  lemma {:induction false} PrefixHandled(q: seq<Message>, pid: nat)
    requires forall i | 0 <= i < |Handled(q, pid)| :: q[i].pid == pid
    ensures q[|Handled(q, pid)|..] == Remaining(q, pid)
  {
    var k := |Handled(q, pid)|;
    if k == 0 {
      NothingHandled(q, pid);
    } else if q[0].mtype != "exit" {
      forall i | 0 <= i < |Handled(q[1..], pid)| ensures q[1..][i].pid == pid { assert q[i + 1].pid == pid; }
      PrefixHandled(q[1..], pid);
      assert q[k..] == q[1..][k - 1..];
    }
  }

  /** The pass erases the first k messages, k being the number it handled. That is the right thing exactly
      when those k messages are all its own. */
  lemma DrainIsRemovalIffPrefix(q: seq<Message>, pid: nat)
    ensures var k := |Handled(q, pid)|;
            q[k..] == Remaining(q, pid) <==> forall i | 0 <= i < k :: q[i].pid == pid
  {
    var k := |Handled(q, pid)|;
    if q[k..] == Remaining(q, pid) {
      RemainingCounts(q, pid);
      assert q == q[..k] + q[k..];
      OwnSplit(q[..k], q[k..], pid);
      OwnAll(q[..k], pid);
      assert forall i | 0 <= i < k :: q[i] == q[..k][i];
    } else if forall i | 0 <= i < k :: q[i].pid == pid {
      PrefixHandled(q, pid);
    }
  }

  /** Another client's message at the head of the queue is lost, and this one's is handled again. */
  lemma DrainLosesAnothersMessage(mine: Message, other: Message)
    requires mine.pid != other.pid
    ensures Handled([other, mine], mine.pid) == [mine]
    ensures [other, mine][|Handled([other, mine], mine.pid)|..] == [mine]
    ensures Remaining([other, mine], mine.pid) == [other]
  {
    assert [other, mine][1..] == [mine] && [mine][1..] == [];
    assert Handled([mine], mine.pid) == [mine];
    assert Remaining([mine], mine.pid) == [];
  }

  class MessageManager {
    const shm: SharedMemory
    const pid: nat
    var messageQueue: seq<Message>

    constructor (shm: SharedMemory, pid: nat)
      ensures this.shm == shm && this.pid == pid
    {
      this.shm := shm;
      this.pid := pid;
      messageQueue := [];
    }

    method ReadFromSharedMemory()
      modifies this
      ensures QueueOf(shm.text, messageQueue)
    {
      hide ReadMessage;
      messageQueue := [];
      var rest := shm.text;
      ghost var before := [];
      while rest != ""
        invariant before + Lines(rest) == Lines(shm.text) && ReadFrom(before, messageQueue)
        decreases |rest|
      {
        var line := Line(rest);
        ghost var lines := Lines(rest);
        rest := if |line| == |rest| then "" else rest[|line| + 1..];
        assert lines == [line] + Lines(rest);
        var stray: nat := *;
        StrayPid(line, stray);
        messageQueue := messageQueue + [ReadMessage(line, stray)];
        Assoc(before, [line], Lines(rest));
        before := before + [line];
      }
      assert before + [] == before;
    }

    method WriteToSharedMemory()
      modifies shm`text
      ensures shm.text == PrintQueue(messageQueue)
    {
      var oss := "";
      var i := 0;
      while i < |messageQueue|
        invariant i <= |messageQueue|
        invariant oss + PrintQueue(messageQueue[i..]) == PrintQueue(messageQueue)
      {
        assert messageQueue[i..][1..] == messageQueue[i + 1..];
        var printed := PrintMessage(messageQueue[i]) + "\n";
        assert oss + PrintQueue(messageQueue[i..]) == (oss + printed) + PrintQueue(messageQueue[i + 1..]);
        oss := oss + printed;
        i := i + 1;
      }
      assert oss + "" == oss;
      shm.text := oss;
    }

    /** `q` is the queue that was found in the shared text. */
    method AddMessage(message: Message) returns (ghost q: seq<Message>)
      requires shm.semaphore == 1
      modifies this, shm
      ensures QueueOf(old(shm.text), q)
      ensures shm.semaphore == 1 && shm.text == PrintQueue(q + [message])
    {
      hide PrintQueue, QueueOf;
      shm.Wait();
      ReadFromSharedMemory();
      q := messageQueue;
      messageQueue := messageQueue + [message];
      WriteToSharedMemory();
      shm.Signal();
    }

    /** The loop over the queue: which messages are handled, and the indices noted for removal. The index
        is only advanced for the process's own messages. */
    method Scan() returns (handled: seq<Message>, removeIdx: seq<nat>, exitFlag: bool)
      ensures handled == Handled(messageQueue, pid)
      ensures exitFlag == ToldToExit(messageQueue, pid)
      ensures |removeIdx| == |handled| && forall i | 0 <= i < |removeIdx| :: removeIdx[i] == i
    {
      hide ToldToExit;
      handled, removeIdx, exitFlag := [], [], false;
      NotTold(pid);
      var idx := 0;
      var n := 0;
      while n < |messageQueue|
        invariant n <= |messageQueue| && !exitFlag
        invariant handled + Handled(messageQueue[n..], pid) == Handled(messageQueue, pid)
        invariant !ToldToExit(messageQueue[..n], pid)
        invariant |removeIdx| == |handled| == idx && forall i | 0 <= i < |removeIdx| :: removeIdx[i] == i
      {
        var message := messageQueue[n];
        assert messageQueue[n..][1..] == messageQueue[n + 1..];
        assert messageQueue[..n + 1] == messageQueue[..n] + [message];
        ToldStep(messageQueue, n, pid);
        n := n + 1;
        if message.pid != pid {
          continue;
        }
        removeIdx := removeIdx + [idx];
        handled := handled + [message];
        if message.mtype == "exit" {
          exitFlag := true;
          return;
        }
        idx := idx + 1;
      }
      assert messageQueue[..n] == messageQueue;
    }

    /** Erases the noted indices from the back. */
    method Erase(removeIdx: seq<nat>)
      requires |removeIdx| <= |messageQueue| && forall i | 0 <= i < |removeIdx| :: removeIdx[i] == i
      modifies this
      ensures messageQueue == old(messageQueue)[|removeIdx|..]
    {
      ghost var q := messageQueue;
      var i := |removeIdx| - 1;
      while i >= 0
        invariant -1 <= i < |removeIdx| <= |q|
        invariant messageQueue == q[..i + 1] + q[|removeIdx|..]
      {
        messageQueue := messageQueue[..removeIdx[i]] + messageQueue[removeIdx[i] + 1..];
        i := i - 1;
      }
    }

    /** One pass of the message loop, over whatever queue it finds in the shared text. */
    method DrainPass() returns (handled: seq<Message>, exitFlag: bool, ghost q: seq<Message>)
      requires shm.semaphore == 1
      modifies this, shm
      ensures QueueOf(old(shm.text), q)
      ensures handled == Handled(q, pid) && exitFlag == ToldToExit(q, pid)
      ensures shm.semaphore == 1 && shm.text == PrintQueue(q[|handled|..])
    {
      hide PrintQueue, QueueOf, Handled, ToldToExit;
      shm.Wait();
      ReadFromSharedMemory();
      q := messageQueue;
      var removeIdx;
      handled, removeIdx, exitFlag := Scan();
      Erase(removeIdx);
      WriteToSharedMemory();
      shm.Signal();
    }
  }

  /** A stray pid is the only thing in which two readings of a line can differ. */
  lemma StrayPid(line: string, stray: nat)
    ensures ReadMessage(line, ReadMessage(line, stray).pid) == ReadMessage(line, stray)
  {
  }
}
