# Remote shells, chat servers and a SOCKS proxy: a verified model

A Dafny 4.11 project that models the state-changing parts of four programs and proves what they keep:

* the stand-alone shell `project1`, whose `|`, `|N`, `!N` and `>` wire child processes together over
  numbered sessions;
* the single-process server `project2/src/np_single_proc`, which gives every client such a shell and adds
  user pipes (`>j`, `<i`), a registry of users and one environment per client inside one process;
* the multi-process server `project2/src/np_multi_proc`, whose registry and message queue are text in shared
  memory under a semaphore;
* the SOCKS4A proxy and the web console of `project4`: relay, address filter, packet codec and HTML escaping.

`dafny verify dfyconfig.toml` checks everything.

## How the model is built

Code that changes things step by step is a class or a method with a loop, in the form of the original: the slots,
counter and table of `PipeManager`, the command loops, the maps of the user managers, the two-loop deletion of
user pipes, the drain pass over the message queue, the relay buffers. Each such method is proved equal to a step of
a specification on values, and the theorems are about every run of that specification. The
translations from what is typed or received to what is done are tied to their inverse: actions, steps, registry
requests and proxy requests are written down as text or bytes, and it is proved that exactly they come out
(`ShellLines.TypedSteps`, `UserPipeLines.TypedActions`, `Interleaving.EveryHistory`, `Relay.RequestByBytes`). The
outermost method carries the theorem back: `Shell.NPShell.Run` promises a wired log for every input,
`UserPipeServer.SingleProcServer.Serve` a legal history with unmixed pipes and distinct names for every sequence of
connections and lines, and
`Relay.SocksSession.Serve` the specified session for every sequence of completions.

| file | contents |
|---|---|
| `Text.dfy` | words, lines and decimal numbers as the stream operators read them; dotted addresses, rewriting |
| `PlainParser.dfy`, `ServerParser.dfy` | the two command-line parsers |
| `PipeGraph.dfy` | who reads which pipe, told from the list of commands alone |
| `PipeMachine.dfy` | the slots as a machine, the proof that it realises the graph, and its counter against a list of countdowns |
| `Shell.dfy` | `PipeManager` and `NPShell` on descriptors |
| `ShellLines.dfy` | steps written down as a line, and the proof that the shell reads exactly them from it |
| `UserPipeHistory.dfy` | histories of users and user pipes, and what a legal one promises |
| `UserPipes.dfy` | the shells of all clients with their shared user pipes, and the proof that every run is legal |
| `UserPipeWriters.dfy` | whose commands write to a pipe and read it: links and mailboxes belong to one client, a user pipe has one writer |
| `UserPipeGraph.dfy` | which command of a client reads and writes what, user pipes included, told from its commands and how its user pipes were answered |
| `UserPipeWiring.dfy` | every command of every client in every run is wired by that graph, over pipes that no other client uses |
| `UserPipeServer.dfy` | `PipeManager`, `NPShell` and `SingleProcServer` of the single-process server |
| `UserPipeLines.dfy` | actions written down as a line, and the proof that a client's shell reads exactly them from it |
| `UserPipeSessions.dfy` | the server on typed lines: their wiring, what one more line does, and two sessions from the first connection on |
| `OnlineUsers.dfy` | its registry, four maps over heap-allocated users |
| `Environment.dfy` | per-client variables in one process environment |
| `RegistryText.dfy`, `SharedRegistry.dfy` | the shared registry as text, and its operations |
| `Interleaving.dfy` | any number of processes taking steps in any order |
| `Messages.dfy` | the shared message queue |
| `QueueInterleaving.dfy` | any number of senders and message processes taking steps in any order |
| `AddressFilter.dfy`, `SocksRequest.dfy`, `Relay.dfy` | the proxy |
| `ConsoleOutput.dfy` | HTML escaping |

Pipes have identities that are never used again, where the operating system reuses descriptor numbers; `pipe` and
`fork` succeed; an accepted connection has a socket that is not in use. The contents of the configuration file, the
address a name resolves to, the socket and address of a client and the bytes of a read are parameters.

## Where the code is not what one would expect

* A command that reads from a user takes the place of the link from the command before it, but a numbered pipe that
  is due stays in its slot and displaces the input of the next command. In `a <i | b` command `b` reads from `a` if
  and only if no numbered pipe was due; otherwise nobody ever reads what `a` writes (`UserPipes.DisplacedLink`).
  A client that types `ls |1` and then `cat <9 | cat` gets there (`UserPipeSessions.DisplacedSession`).
* `<i` with an id that nobody has reads nothing, unless the client still holds a pipe from an earlier line that ended
  in `<k >` without a file name: then it reads that pipe (`UserPipes.ReceivedInput`, `UserPipes.HeldPipe`). Two
  clients who type `ls >2`, `cat <1 >` and `cat <9` get there (`UserPipeSessions.HeldSession`).
* One pass over the message queue erases the first k messages, where k is the number it handled. That removes what
  was handled if and only if those k are all this client's (`Messages.DrainIsRemovalIffPrefix`,
  `Messages.DrainLosesAnothersMessage`), and there are runs in which another's message is lost
  (`QueueInterleaving.LossInRun`).
* A queue of messages reads back from the shared text if and only if each message has a one-word type and a one-line
  value that does not start with whitespace, or neither type nor value (`Messages.ReadsBackIff`). A message that ends
  in a newline, as `tell` makes it, reads back as two, and the second one has whatever pid was left in a variable that
  was never set (`Messages.TrailingNewline`).
* The script that shows an output is read as meant if and only if the output has no carriage return, which is not
  escaped (`ConsoleOutput.ScriptReadsOutput`).
* A pipe that is held when a builtin runs in its reader's place is never read and never closed
  (`PipeMachine.PipeAccounting`).
* In the single-process server, a line parsed into commands and printed again keeps its tokens exactly when it does
  not begin with an operator (`ServerParser.ConservesIff`).

## Model

| member | source | states |
|---|---|---|
| PlainParser.Parse | project1/src/Parser.cpp:16-53 | the token loop computes `ParseTokens` of the words of the line |
| PlainParser.ParseFlatten | project1/src/Parser.cpp:16-53 | printing well-formed commands and operators and parsing them gives them back |
| PlainParser.Unflatten | project1/src/Parser.cpp:16-53 | conversely, every token list without a misplaced operator is the print of well-formed commands and operators |
| PlainParser.MisplacedFails | project1/src/Parser.cpp:16-53 | a line with an operator where a command must begin is refused |
| PlainParser.ParseMeaning | project1/src/Parser.cpp:16-62 | a line is accepted if and only if no operator stands where a command must begin, and then exactly the flattened tokens come out |
| PlainParser.OperatorIff | project1/src/Parser.cpp:13-62 | a token is an operator if and only if it is `\|`, `>`, or `\|` or `!` with the decimal of a positive number |
| PipeGraph.ReadsWritten | project1/src/NPShell.cpp:51-109 | every pipe of the graph that is read was written by an earlier command |
| PipeGraph.OneReader | project1/src/NPShell.cpp:51-109 | no two commands of a session history read the same pipe |
| PipeGraph.Writers | project1/src/NPShell.cpp:51-109 | a link has one writer; the mailbox of session t is written by exactly the commands ending a session s in `\|n` or `!n` with s+n=t, all before t opens |
| PipeMachine.WiringRefinesGraph | project1/src/PipeManager.cpp:29-126 | for every sequence of commands the slots, counter and table give each child the streams of the graph, under one injective naming of pipes |
| PipeMachine.HeldUnlessRead | project1/src/PipeManager.cpp:29-90 | a pipe is in a slot or in the table exactly until its reader has run |
| PipeMachine.PipeAccounting | project1/src/PipeManager.cpp:29-165 | every pipe ever opened is held, closed or dropped, never two of these; closed if and only if a forked command read it, dropped if and only if a builtin ran in its reader's place |
| PipeMachine.NumberedPipeArrives | project1/src/PipeManager.cpp:128-165 | the output of `\|N` is due exactly when the N-th later session opens, and at no other time |
| PipeMachine.CountsDown | project1/src/PipeManager.cpp:128-165 | after every sequence of commands the table under its raised counter holds exactly the entries of a list of countdowns that is really decremented, and the same pipe is due |
| PipeMachine.SoundAct | project1/src/PipeManager.cpp:45-90 | a command keeps the slots sound: pipes in slots are open, no two slots hold the same one, and no key of the table is at or below the counter |
| PipeMachine.SoundNewSession | project1/src/PipeManager.cpp:29-43 | so does a new session, whose erase therefore never removes a pipe |
| Shell.PipeManager.NewSession | project1/src/PipeManager.cpp:29-43 | the new values of all slots, the counter and the table |
| Shell.PipeManager.ReduceNumberedPipesCount | project1/src/PipeManager.cpp:161-165 | the entry of the old counter is erased and the counter raised |
| Shell.PipeManager.LoadCurrentNumberedPipe | project1/src/PipeManager.cpp:149-159 | the entry of the counter moves into its slot |
| Shell.PipeManager.AddNumberedPipe | project1/src/PipeManager.cpp:128-147 | the pipe for count+N, opened only if there is none yet |
| Shell.PipeManager.RootPipeHandler | project1/src/PipeManager.cpp:45-73 | the input and output slots before the fork, and the descriptors a new pipe adds |
| Shell.PipeManager.ParentPipeHandler | project1/src/PipeManager.cpp:75-90 | both ends of the input are closed, each open until then, and the link moves on |
| Shell.PipeManager.ChildPipeHandler | project1/src/PipeManager.cpp:92-126 | the descriptor table of the child |
| Shell.DescriptorOpens | project1/src/PipeManager.cpp:56-66 | opening a pipe keeps the descriptor table holding exactly the ends of the live pipes |
| Shell.DescriptorCloses | project1/src/PipeManager.cpp:75-79 | so does closing one, and nothing is closed twice |
| Shell.NPShell.Wire | project1/src/NPShell.cpp:117-164 | the three handlers around a fork give the child the streams of the machine's event and take the machine's pipes out of the descriptor table |
| Shell.NPShell.ExecuteForkedCommand | project1/src/NPShell.cpp:117-164 | one fork is one step of the machine |
| Shell.NPShell.ExecuteBuiltin | project1/src/NPShell.cpp:58-64 | a builtin ends its session without forking, and only `exit` sets the flag |
| Shell.NPShell.ExecuteNumbered | project1/src/NPShell.cpp:82-101 | `\|N` and `!N` are one step of the machine |
| Shell.NPShell.ExecuteLine | project1/src/NPShell.cpp:51-109 | the loop over a line runs exactly the steps of its parse |
| Shell.NPShell.Run | project1/src/NPShell.cpp:39-115 | on every input, up to the line that exits, the descriptors of every forked child are those of the graph, no child can keep its own input open, and the shell's descriptors are exactly those of the live pipes |
| ShellLines.TypedSteps | project1/src/NPShell.cpp:51-109 | every list of commands written as name, arguments and `\|`, `> file`, `\|n` or `!n` makes the shell take exactly those steps: `!` exactly for the error stream, n exactly as far ahead, what follows a file name ignored, and nothing for a last `>` without a name |
| ShellLines.MisplacedDoesNothing | project1/src/Parser.cpp:25-53 | a line with an operator at its beginning or right behind another one makes it take no step |
| ShellLines.EveryLineInWriting | project1/src/NPShell.cpp:51-109 | every other line of words is such a list in writing, so that the two above cover all lines |
| ShellLines.InputOfLines | project1/src/NPShell.cpp:39-115 | the lines of an input are worked off in order, up to and including the first in which `exit` is run |
| ServerParser.Parse | project2/src/np_single_proc/src/Parser.cpp:20-84 | the token loop computes `ParseLine` |
| ServerParser.ParseWords | project2/src/np_single_proc/src/Parser.cpp:20-111 | every command list of words in which each command but the last has an operator comes back from each line with its words, however they are spaced; `yell` and `tell` may stand in it as arguments |
| ServerParser.LeadingOperatorsMove | project2/src/np_single_proc/src/Parser.cpp:20-84 | operators at the very beginning of a line go to its first command, in front of its own |
| ServerParser.OperatorIff | project2/src/np_single_proc/src/Parser.cpp:13-93 | a token is an operator if and only if it is `\|`, `>`, or one of `\|`, `!`, `<` and `>` with the decimal of a positive number |
| ServerParser.ConservesIff | project2/src/np_single_proc/src/Parser.cpp:20-84 | the commands of a line without `yell` and `tell` have exactly the tokens of the line, in order, if and only if the line does not begin with an operator |
| ServerParser.ArgumentsAreWords | project2/src/np_multi_proc/src/Parser.cpp:20-84 | on every line, the name of a command is a whitespace-free word and no operator, and so is each argument of a command other than `yell` and `tell` |
| ServerParser.RawCommandEndsParse | project2/src/np_single_proc/src/Parser.cpp:32-67 | only the last command of any line can be `yell` or `tell`; its last argument is the end of the line as typed, and it gets no operator after it |
| ServerParser.RawRoundTrip | project2/src/np_single_proc/src/Parser.cpp:48-63 | after any commands, `yell` takes all the rest of the line as its one argument, and `tell` one word and then all the rest |
| UserPipeHistory.WaitingMeaning | project2/src/np_single_proc/src/PipeManager.cpp:200-256 | a pipe waits between two users if and only if it was opened for them and since then neither taken nor closed by the leaving of one of them |
| UserPipeHistory.WaitingUsersOnline | project2/src/np_single_proc/src/PipeManager.cpp:243-256 | both users of a waiting pipe are online, it was sent by the one to the other, and nobody has taken it |
| UserPipeHistory.TakenAtMostOnce | project2/src/np_single_proc/src/PipeManager.cpp:223-241 | no pipe is taken twice |
| UserPipeHistory.RefusedWhileWaiting | project2/src/np_single_proc/src/PipeManager.cpp:200-220 | `>j` of user i is refused if and only if a pipe from i to j is still waiting |
| UserPipeHistory.NewcomerStartsClean | project2/src/np_single_proc/src/SingleProcServer.cpp:137-188 | who enters under the lowest free id, recycled or not, finds no pipe in either direction |
| UserPipeHistory.ReadAtMostOnce | project2/src/np_single_proc/src/PipeManager.cpp:46-129 | no two commands of any clients read the same link, numbered pipe or user pipe |
| UserPipeHistory.ReadByReceiver | project2/src/np_single_proc/src/NPShell.cpp:141-188 | a command that reads a user pipe belongs to the user it was sent to, who has taken it, and is the only reader |
| UserPipeHistory.WrittenBySender | project2/src/np_single_proc/src/NPShell.cpp:112-140 | in a legal history whose pipes are unmixed, no command writes to a user pipe before it is opened, and the only one that ever does is the one its sender ran right after |
| UserPipeHistory.OneWriter | project2/src/np_single_proc/src/PipeManager.cpp:46-129 | in a history whose pipes are unmixed, two commands that write to one pipe are the same user's, who has not left in between |
| UserPipeHistory.ReadsOwnWrites | project2/src/np_single_proc/src/PipeManager.cpp:46-172 | and a command that reads a pipe that was not sent reads what its own user wrote to it in the same stay, and nothing else |
| UserPipeHistory.NamesDiffer | project2/src/np_single_proc/src/UserManager.cpp:94-109 | in every history the users online are the ones with names, and no two names are equal unless empty |
| UserPipeHistory.IdsWithinPeak | project2/src/np_single_proc/src/UserManager.cpp:111-118 | every id online lies between 1 and the largest number of users there have been at one time |
| UserPipes.ActKeeps | project2/src/np_single_proc/src/NPShell.cpp:53-241 | one command of one client keeps the history legal, every pipe in at most one place, user pipes only in the table or in their receiver's slot, and what nobody holds unread for ever |
| UserPipes.EnterKeeps | project2/src/np_single_proc/src/SingleProcServer.cpp:137-168 | so does a client that enters |
| UserPipes.LeaveKeeps | project2/src/np_single_proc/src/SingleProcServer.cpp:170-188 | so does one that leaves |
| UserPipes.RunIsLegal | project2/src/np_single_proc/src/SingleProcServer.cpp:48-132 | every run of the server makes a legal history; the user-pipe table and the ids in use are what the history says |
| UserPipes.UserPipeTable | project2/src/np_single_proc/src/PipeManager.cpp:200-256 | between lines each key of `userPipeMap` names two connected users, and its pipe is the one opened for them and neither taken nor closed since |
| UserPipes.NewcomerHasNoPipe | project2/src/np_single_proc/src/SingleProcServer.cpp:137-168 | in every reachable state, the next client to connect has no key in the table |
| UserPipes.DisplacedLink | project2/src/np_single_proc/src/PipeManager.cpp:53-77 | after `a <i \|`, the next command reads from a if and only if no numbered pipe was due; if one was, it reads that, and the link is read by nobody in any continuation of the run |
| UserPipes.ReceivedInput | project2/src/np_single_proc/src/NPShell.cpp:141-188 | the command of `<i` reads the pipe i sent, or nothing, if and only if i is a user or the client holds no pipe taken before |
| UserPipes.HeldPipe | project2/src/np_single_proc/src/NPShell.cpp:166-176 | exactly which commands leave a taken pipe in the slot |
| UserPipes.OpenPipes | project2/src/np_single_proc/src/PipeManager.cpp:111-256 | in every reachable state the server has a pipe open if and only if it was opened, no command has read it, and none of its two users left while it waited |
| UserPipes.ClosesOpenPipes | project2/src/np_single_proc/src/PipeManager.cpp:111-256 | whatever is closed after a fork or when a user leaves is open until then |
| UserPipeWriters.ActBehaves | project2/src/np_single_proc/src/PipeManager.cpp:46-241 | an action of any kind writes only to pipes it opens and to its client's own mailboxes, reads only its client's own pipes and those sent to it, and touches no older pipe of others |
| UserPipeWriters.RunIsUnmixed | project2/src/np_single_proc/src/SingleProcServer.cpp:48-188 | in every run of the server the pipes are unmixed |
| UserPipeWriters.PipeOfOneClient | project2/src/np_single_proc/src/PipeManager.cpp:46-129 | in every run, all commands that write to one pipe are one user's in one stay |
| UserPipeWriters.UserPipeOfSender | project2/src/np_single_proc/src/NPShell.cpp:112-140 | in every run, the only command that writes to a user pipe, before or after it is opened, is the one its sender ran when it was opened |
| UserPipeWriters.ReadsOwnPipes | project2/src/np_single_proc/src/PipeManager.cpp:46-172 | in every run, what a command reads from a link or mailbox was written by its own user's commands in the same stay, by at least one and by nobody else |
| UserPipeGraph.ReadsWritten | project2/src/np_single_proc/src/NPShell.cpp:53-241 | the link or mailbox that a step of the graph reads was written by an earlier step |
| UserPipeGraph.HeldMeaning | project2/src/np_single_proc/src/NPShell.cpp:141-188 | a client holds a taken pipe if and only if some line that was given up took it, and every step since was the middle of a pipeline or another such line for an unknown user |
| UserPipeGraph.DisplacedInGraph | project2/src/np_single_proc/src/PipeManager.cpp:53-77 | in the graph, the command after `a <i \|` reads the link from a if and only if no unread mailbox was waiting for the session |
| UserPipeGraph.SameGraph | project2/src/np_single_proc/src/NPShell.cpp:53-241 | for a client without user pipes the graph is the one of the stand-alone shell |
| UserPipeWiring.ActIsWired | project2/src/np_single_proc/src/PipeManager.cpp:24-241 | one action of any kind, from any state of the slots that fits what the client did before, has exactly the streams of the graph, and the slots fit again |
| UserPipeWiring.ActQuiet | project2/src/np_single_proc/src/NPShell.cpp:53-241 | a command of another client, of any kind, adds nothing to this client's commands |
| UserPipeWiring.ClientIsWired | project2/src/np_single_proc/src/SingleProcServer.cpp:48-188 | from its arrival on and whatever others do before and in between, all that a client does, user pipes and the line with `exit` included, is exactly what the graph of its own commands says, over distinct pipes of the server for distinct links and mailboxes, to which no command of another client or of an earlier stay ever writes and which none reads |
| UserPipeWiring.EveryLineIsWired | project2/src/np_single_proc/src/SingleProcServer.cpp:48-188 | that holds of every connected client at every line in every run of the server |
| UserPipeLines.TypedActions | project2/src/np_single_proc/src/NPShell.cpp:51-241 | every list of actions written as name, arguments and operators, in either order of `<i >j` and with whatever the shell does not look at behind them, makes the shell take exactly those actions, with those files and numbers |
| UserPipeLines.TypedYell | project2/src/np_single_proc/src/Parser.cpp:51-55 | and so does such a list with `yell` and any message behind it |
| UserPipeLines.TypedTell | project2/src/np_single_proc/src/Parser.cpp:56-63 | or with `tell`, a user and any message |
| UserPipeLines.EveryLineInWriting | project2/src/np_single_proc/src/NPShell.cpp:51-241 | every list of commands with an operator behind each but the last is such a list in writing |
| UserPipeLines.ReadAndSend | project2/src/np_single_proc/src/NPShell.cpp:112-146 | `<i >j` and `>j <i` both read from user i and send to user j |
| UserPipeSessions.TypedLineIsWired | project2/src/np_single_proc/src/SingleProcServer.cpp:79-131 | and so of every line as typed, after any connections and typed lines of any clients |
| UserPipeSessions.ReadAndSendRuns | project2/src/np_single_proc/src/NPShell.cpp:201-240 | in every run, a line with `<i >j` in either order takes what user i has sent, opens a pipe to user j, and forks one command between them; what is missing, refused or unknown becomes the null device |
| UserPipeSessions.SendRuns | project2/src/np_single_proc/src/NPShell.cpp:112-140 | in every run, a line with `>j` opens the pipe, is refused or finds no such user, and its command writes there or to the null device |
| UserPipeSessions.ReceiveRuns | project2/src/np_single_proc/src/NPShell.cpp:142-193 | in every run, a line with `<i` takes what user i has sent and its command reads that or nothing |
| UserPipeSessions.NameRuns | project2/src/np_single_proc/src/BuildinCommand.cpp:95-121 | in every run, a client that types `name w` has that name afterwards unless it was in use, and nobody else is renamed |
| UserPipeSessions.ExitRuns | project2/src/np_single_proc/src/SingleProcServer.cpp:108-120 | in every run, a client that types `exit` is gone afterwards, and so are its id and its shell |
| UserPipeSessions.ConnectRuns | project2/src/np_single_proc/src/SingleProcServer.cpp:137-168 | in every run, a client that connects is online under the least id that nobody has |
| UserPipeSessions.DisplacedSession | project2/src/np_single_proc/src/PipeManager.cpp:53-77 | from the empty server, `ls \|1` and then `cat <9 \| cat`: the second cat reads from ls, and the link of the first has no reader |
| UserPipeSessions.HeldSession | project2/src/np_single_proc/src/NPShell.cpp:141-188 | from the empty server, two users, `ls >2`, `cat <1 >`, `cat <9`: the last command reads what user 1 sent |
| UserPipeServer.Shared.CloseUserPipe | project2/src/np_single_proc/src/PipeManager.cpp:243-256 | the two loops remove exactly the keys that name the user, and both ends of exactly their pipes are closed |
| UserPipeServer.PipeManager.NewSession | project2/src/np_single_proc/src/PipeManager.cpp:24-44 | all slots are emptied and the due numbered pipe is loaded |
| UserPipeServer.PipeManager.RootPipeHandler | project2/src/np_single_proc/src/PipeManager.cpp:46-109 | which input wins, which slots that clears, and where the output goes, `/dev/null` included |
| UserPipeServer.PipeManager.ParentPipeHandler | project2/src/np_single_proc/src/PipeManager.cpp:111-129 | both ends of the input are closed and the link moves on |
| UserPipeServer.PipeManager.ChildPipeHandler | project2/src/np_single_proc/src/PipeManager.cpp:131-172 | the three streams of the child |
| UserPipeServer.PipeManager.AddNumberedPipe | project2/src/np_single_proc/src/PipeManager.cpp:174-198 | the mailbox of a later session, opened only once |
| UserPipeServer.PipeManager.AddUserPipe | project2/src/np_single_proc/src/PipeManager.cpp:200-220 | a new pipe under a free key; false, and nothing changed, under a key in use |
| UserPipeServer.PipeManager.LoadUserPipe | project2/src/np_single_proc/src/PipeManager.cpp:223-241 | the waiting pipe moves from the table into the slot; false if there is none |
| UserPipeServer.NPShell.ExecuteForkedCommand | project2/src/np_single_proc/src/NPShell.cpp:248-291 | one fork under any two modes: the streams of the child and the slots after it |
| UserPipeServer.NameCommand | project2/src/np_single_proc/src/BuildinCommand.cpp:95-121 | `name` gives the user the name unless it is empty or somebody has it |
| UserPipeServer.NPShell.ExecuteBuiltin | project2/src/np_single_proc/src/NPShell.cpp:53-80 | a builtin ends its session, `exit` alone sets the flag, and `name` alone changes the names |
| UserPipeServer.NPShell.OpenUserPipe | project2/src/np_single_proc/src/NPShell.cpp:119-133 | `>j`: no such user, refused, or opened |
| UserPipeServer.NPShell.TakeUserPipe | project2/src/np_single_proc/src/NPShell.cpp:147-164 | `<i`: no such user, missing, or taken |
| UserPipeServer.NPShell.ExecuteFromUser | project2/src/np_single_proc/src/NPShell.cpp:141-188 | the branch of `<i` with every second operator, and when the line ends there |
| UserPipeServer.NPShell.ExecuteOther | project2/src/np_single_proc/src/NPShell.cpp:80-140 | the other branches, the two orders of `<i >j` included |
| UserPipeServer.NPShell.Execute | project2/src/np_single_proc/src/NPShell.cpp:53-241 | the loop over a line runs exactly the actions of its parse |
| UserPipeServer.ParsedOperators | project2/src/np_single_proc/src/Parser.cpp:86-93 | every operator in a parsed line is one the shell can act on |
| UserPipeServer.SingleProcServer.NewClient | project2/src/np_single_proc/src/SingleProcServer.cpp:137-168 | shell and user are added together |
| UserPipeServer.SingleProcServer.CloseClient | project2/src/np_single_proc/src/SingleProcServer.cpp:170-188 | the user's pipes are closed and then the user is removed |
| UserPipeServer.SingleProcServer.HandleLine | project2/src/np_single_proc/src/SingleProcServer.cpp:79-131 | a line of a client is one step of the specification, its departure after `exit` included |
| UserPipeServer.SingleProcServer.Serve | project2/src/np_single_proc/src/SingleProcServer.cpp:48-132 | for every sequence of connections and lines the history is legal and its pipes unmixed, `userPipeMap` holds exactly the waiting pipes, and the users have the names of the history, no two the same unless empty |
| OnlineUsers.UserManager.AddUser | project2/src/np_single_proc/src/UserManager.cpp:13-34 | the new user has the lowest free id and no name, all maps agree, and no name is ever brought back for an address |
| OnlineUsers.UserManager.RemoveUserById | project2/src/np_single_proc/src/UserManager.cpp:36-47 | exactly that user leaves all maps |
| OnlineUsers.UserManager.RemoveUserByFd | project2/src/np_single_proc/src/UserManager.cpp:49-60 | exactly that user leaves all maps |
| OnlineUsers.UserManager.GetUserByName | project2/src/np_single_proc/src/UserManager.cpp:78-87 | a non-empty name is found if and only if some user has it, and the entry under the empty name is never returned |
| OnlineUsers.UserManager.SetNameById | project2/src/np_single_proc/src/UserManager.cpp:94-109 | the name is given if and only if it is not empty and nobody has it |
| OnlineUsers.UserManager.NamesUnique | project2/src/np_single_proc/src/UserManager.cpp:94-109 | no two users have the same non-empty name |
| OnlineUsers.UserManager.IdsValues | project2/src/np_single_proc/src/UserManager.cpp:13-60 | the socket map and the id map index the same ids |
| Environment.ShellEnvironment.SetEnv | project2/src/np_single_proc/src/NPShell.cpp:294-305 | the stored original is the value at first use, the client's value is the new one |
| Environment.ShellEnvironment.GetEnv | project2/src/np_single_proc/src/NPShell.cpp:307-317 | the client's value, the variable being stored at first use |
| Environment.ShellEnvironment.LoadEnv | project2/src/np_single_proc/src/NPShell.cpp:319-323 | the client's values overwrite the process environment, in whatever order |
| Environment.ShellEnvironment.ResetEnv | project2/src/np_single_proc/src/NPShell.cpp:324-328 | the originals overwrite it |
| Environment.ShellEnvironment.ExecuteLine | project2/src/np_single_proc/src/NPShell.cpp:42-243 | a whole line: loading, the variable builtins and their answers, resetting |
| Environment.BetweenLinesNothingChanged | project2/src/np_single_proc/src/NPShell.cpp:294-328 | for every interleaving of lines of any clients, between lines the process environment is the initial one and every stored original is the global value |
| Environment.ChildrenSeeOwnClient | project2/src/np_single_proc/src/NPShell.cpp:42-43 | a child sees what its own client last set before the line, or the global value, for every variable |
| Environment.GetAnswersOwnLastSet | project2/src/np_single_proc/src/NPShell.cpp:307-317 | `printenv` answers with the last value the same client set, or else the global one |
| Environment.NewClientsPath | project2/src/np_single_proc/src/SingleProcServer.cpp:137-141 | whatever happens, the children of a client see `bin:.` as their PATH until it sets its own |
| RegistryText.ReadOfPrint | project2/src/np_multi_proc/src/UserManager.cpp:207-319 | reading what was written restores the id map and rebuilds the pid and name maps as its exact inverses |
| RegistryText.LowestFreeBound | project2/src/np_multi_proc/src/UserManager.cpp:321-329 | if all smaller ids are used, an id is at most one more than the number of users |
| RegistryText.IdMin | project2/src/np_multi_proc/src/UserManager.cpp:321-329 | the loop ends at the least positive unused id |
| SharedRegistry.AddUserAdds | project2/src/np_multi_proc/src/UserManager.cpp:39-60 | adding to the maps adds to the set of users and keeps the maps inverse |
| SharedRegistry.RemoveUserRemoves | project2/src/np_multi_proc/src/UserManager.cpp:81-98 | removal by pid removes exactly that user |
| SharedRegistry.RenameUserRenames | project2/src/np_multi_proc/src/UserManager.cpp:155-181 | renaming changes one name, if it is free and not empty |
| SharedRegistry.PidsAgree | project2/src/np_multi_proc/src/UserManager.cpp:115-127 | a pid is in the pid map if and only if it is registered, with its own user |
| SharedRegistry.PeerOfBytes | project2/src/np_multi_proc/src/UserManager.cpp:43 | an address is recorded as its four bytes in decimal with dots, a colon and the port |
| SharedRegistry.UserManager.ReadFromSharedMemory | project2/src/np_multi_proc/src/UserManager.cpp:207-277 | the loop over the lines rebuilds the three maps |
| SharedRegistry.UserManager.WriteToSharedMemory | project2/src/np_multi_proc/src/UserManager.cpp:279-319 | the text is the print of the id map |
| SharedRegistry.UserManager.AddUser | project2/src/np_multi_proc/src/UserManager.cpp:39-60 | the critical section as a whole, from one printed registry to the next |
| SharedRegistry.UserManager.RemoveUserByPid | project2/src/np_multi_proc/src/UserManager.cpp:81-98 | likewise |
| SharedRegistry.UserManager.SetNameById | project2/src/np_multi_proc/src/UserManager.cpp:155-181 | likewise, with the answer |
| Interleaving.StepKeepsInv | project2/src/np_multi_proc/src/sem.cpp:97-108 | every wait, read, compute, write and signal step of any process keeps the invariant |
| Interleaving.MutualExclusion | project2/src/np_multi_proc/src/sem.cpp:97-108 | semaphore value plus the number of processes inside is one, in every interleaving |
| Interleaving.Linearizable | project2/src/np_multi_proc/src/UserManager.cpp:39-98 | for all typed lines and addresses, the committed operations, in lock order, form a history of processes taking turns, each with what it may want at its stage and the same answers, and the text is the print of its result |
| Interleaving.EveryHistory | project2/src/np_multi_proc/src/UserManager.cpp:39-181 | conversely, every such history is that of some schedule |
| Interleaving.JoinTurn | project2/src/np_multi_proc/src/UserManager.cpp:39-60 | in every state with the semaphore free, a process that starts to serve a connection is added to the text under the least free id, unnamed, with the address and port of its client |
| Interleaving.LeaveTurn | project2/src/np_multi_proc/src/MultiProcServer.cpp:179-196 | in every such state, a process whose client leaves takes its own user out of the text, and no other |
| Interleaving.FindTurn | project2/src/np_multi_proc/src/UserManager.cpp:115-127 | a process that looks itself up learns its own id and leaves the text alone |
| Interleaving.NameTurn | project2/src/np_multi_proc/src/UserManager.cpp:155-181 | and then the user of that id gets the name that was typed, unless somebody has it |
| Interleaving.NameInLine | project2/src/np_multi_proc/src/BuildinCommand.cpp:93-101 | the name that is asked for is the first argument of the command typed as `name` |
| Interleaving.AlwaysUnique | project2/src/np_multi_proc/src/UserManager.cpp:155-205 | ids, pids and non-empty names are unique at all times |
| Interleaving.NeverNotFound | project2/src/np_multi_proc/src/UserManager.cpp:115-181 | a process that looks itself up is found, and the id it renames is still its own |
| Interleaving.IdsWithinPeak | project2/src/np_multi_proc/src/UserManager.cpp:321-329 | no id exceeds the largest number of users there have been at one time |
| Messages.ReadsBackIff | project2/src/np_multi_proc/src/MessageManager.cpp:151-248 | a queue is read from its own print if and only if every message has a one-word type and a one-line value without leading whitespace, or neither |
| Messages.ReadOfPrint | project2/src/np_multi_proc/src/MessageManager.cpp:151-248 | and from the print of such a queue that queue is read and no other |
| Messages.TrailingNewline | project2/src/np_multi_proc/src/MessageManager.cpp:151-248 | a value that ends in a newline reads back as that message without it and one more, of empty type and value and any pid |
| Messages.PairRoundTrip | project2/src/np_multi_proc/src/MessageManager.cpp:77-84 | the payload `i_j` decodes to i and j |
| Messages.RemainingCounts | project2/src/np_multi_proc/src/MessageManager.cpp:49-92 | the right queue after a pass is shorter by the number handled |
| Messages.HandledUpToExit | project2/src/np_multi_proc/src/MessageManager.cpp:49-88 | a process handles all messages for it, in order, and none behind the first `exit` for it |
| Messages.DrainIsRemovalIffPrefix | project2/src/np_multi_proc/src/MessageManager.cpp:49-92 | dropping the first k messages removes what was handled if and only if those k are all this process's |
| Messages.DrainLosesAnothersMessage | project2/src/np_multi_proc/src/MessageManager.cpp:49-92 | an example with another's message first: that one is lost, and this one's stays |
| Messages.MessageManager.Scan | project2/src/np_multi_proc/src/MessageManager.cpp:47-88 | the messages handled, in order up to the first `exit`, and the noted indices 0, 1, ..., k-1 |
| Messages.MessageManager.Erase | project2/src/np_multi_proc/src/MessageManager.cpp:90-92 | erasing the noted indices from the back drops the first k |
| Messages.MessageManager.DrainPass | project2/src/np_multi_proc/src/MessageManager.cpp:42-101 | one pass as a whole, over whatever queue is read from the text: what is handled, whether it was told to exit, and the text that is written |
| Messages.MessageManager.AddMessage | project2/src/np_multi_proc/src/MessageManager.cpp:106-114 | the message is appended to whatever queue is read from the text |
| QueueInterleaving.StepKeepsInv | project2/src/np_multi_proc/src/sem.cpp:97-108 | every wait, read, compute, write and signal step of any sender or message process keeps the invariant |
| QueueInterleaving.MutualExclusion | project2/src/np_multi_proc/src/sem.cpp:97-108 | semaphore value plus the number of processes inside is one, in every interleaving |
| QueueInterleaving.Linearizable | project2/src/np_multi_proc/src/MessageManager.cpp:42-114 | in every schedule the committed additions and passes form, in lock order, a history of processes taking turns, and the text is what the last of them wrote |
| QueueInterleaving.QueueOfRun | project2/src/np_multi_proc/src/MessageManager.cpp:42-114 | when every added message reads back, the text is the print of the queue that the operations make in lock order, and each of them found and handled what the ones before it made |
| QueueInterleaving.EveryHistory | project2/src/np_multi_proc/src/MessageManager.cpp:42-114 | conversely, every history of processes taking turns is that of some schedule |
| QueueInterleaving.LossInRun | project2/src/np_multi_proc/src/MessageManager.cpp:42-101 | for any two messages for different processes there is a run in which the one is lost and the other stays to be handled again |
| AddressFilter.TranslationKeepsMeaning | project4/src/socksServer/src/Firewall.cpp:60-61 | escaping the dots and then expanding the stars gives a regular expression that matches exactly what the filter means |
| AddressFilter.GlobAtDot | project4/src/socksServer/src/Firewall.cpp:22-35 | with equally many dots left in filter and text, no star reaches across a dot |
| Text.QuadOfAddress | project4/src/socksServer/src/Socks4aRequest.cpp:53-57 | an address is written as the decimals of its four bytes, the first one first |
| AddressFilter.FilterByOctets | project4/src/socksServer/src/Firewall.cpp:22-35 | a filter with three dots accepts the address of the bytes b0, b1, b2, b3 if and only if its fields, in their order, accept the decimals of these bytes |
| AddressFilter.FiltersMean | project4/src/socksServer/src/Firewall.cpp:17-39 | the loaded filters accept an address exactly when some line of the configuration permits it |
| AddressFilter.PermitsMeaning | project4/src/socksServer/src/Firewall.cpp:17-74 | a CONNECT is permitted if and only if some line `permit c f` fits the decimals of the four bytes, a BIND if and only if some line `permit b f` does, and nothing else ever is |
| AddressFilter.Firewall.LoadConfigFile | project4/src/socksServer/src/Firewall.cpp:41-74 | the translated filters of every permitting line are appended, in order |
| AddressFilter.Firewall.IsPermit | project4/src/socksServer/src/Firewall.cpp:17-39 | permitted if and only if the file can be read and some line permits the command for the address, however often it was asked before |
| SocksRequest.ByteArr | project4/src/consoleCgi/src/Socks4aRequest.cpp:80-89 | every one of the `size()` bytes is filled, within bounds, with the packet |
| SocksRequest.ParseRequest | project4/src/socksServer/src/Socks4aRequest.cpp:17-39 | the reader computes `Parse` of its buffer |
| SocksRequest.ParsedBytes | project4/src/socksServer/src/Socks4aRequest.cpp:17-39 | in a parsed request, version and command are the first two bytes, and port and address the next two and four, the highest first |
| SocksRequest.PacketHeader | project4/src/consoleCgi/src/Socks4aRequest.cpp:80-89 | the first eight bytes are version, command, port and address in network byte order |
| SocksRequest.WrittenBytes | project4/src/consoleCgi/src/Socks4aRequest.cpp:80-89 | the bytes of an address are written in their order |
| SocksRequest.ParseOfPacket | project4/src/socksServer/src/Socks4aRequest.cpp:17-39 | the server reads back the request, whatever follows it in the buffer |
| SocksRequest.RoundTripIff | project4/src/socksServer/src/Socks4aRequest.cpp:17-39 | the packet alone reads back if and only if a domain name is given exactly for the addresses 0.0.0.1 to 0.0.0.255 |
| Relay.HandleKeepsInv | project4/src/socksServer/src/SocksSession.cpp:34-207 | every completion keeps the invariant |
| Relay.RelayConserves | project4/src/socksServer/src/SocksSession.cpp:139-207 | for every order of completions and each direction, bytes sent plus the chunk in flight are the bytes got, in order |
| Relay.NothingUnlessPermitted | project4/src/socksServer/src/SocksSession.cpp:34-69 | nothing is relayed unless the filter permits the request, and the branch for any other command is never taken |
| Relay.RequestByBytes | project4/src/socksServer/src/SocksSession.cpp:34-69 | a request with second byte 1 sets up a tunnel without a reply if and only if a line `permit c f` fits its address, one with 2 sets up a tunnel with one reply if and only if a line `permit b f` does, and every other gets exactly one refusal |
| Relay.TunnelByBytes | project4/src/socksServer/src/SocksSession.cpp:91-137 | once the tunnel is there both directions start to read, with one reply in all for 1 and two for 2; if it fails the client is closed, after a refusal for 1 |
| Relay.HandleGrows | project4/src/socksServer/src/SocksSession.cpp:139-207 | nothing sent or got is ever taken back |
| Relay.SocksSession.ReadSocks | project4/src/socksServer/src/SocksSession.cpp:34-69 | the request handler as a whole |
| Relay.SocksSession.Decide | project4/src/socksServer/src/SocksSession.cpp:48-67 | the verdict and the tunnel it leads to |
| Relay.SocksSession.OnTunnel | project4/src/socksServer/src/SocksSession.cpp:91-137 | the outcome of connecting or accepting |
| Relay.SocksSession.OnReply | project4/src/socksServer/src/SocksSession.cpp:71-89 | a refused client is closed once the reply is out |
| Relay.SocksSession.OnRelay | project4/src/socksServer/src/SocksSession.cpp:139-207 | the four relay handlers on fixed buffers |
| Relay.SocksSession.Deliver | project4/src/socksServer/src/SocksSession.cpp:25-207 | in every state that completions can lead to, the next completion finds what its handler relies on, and the handlers make the specified step |
| Relay.SocksSession.Serve | project4/src/socksServer/src/SocksSession.cpp:25-207 | for every sequence of completions a new session ends in the specified state: one operation pending per direction, and no buffer rewritten while its write is pending |
| Relay.Channel.OnRead | project4/src/socksServer/src/SocksSession.cpp:139-176 | what was read is copied into the write buffer, which no write is using |
| Relay.Channel.OnWritten | project4/src/socksServer/src/SocksSession.cpp:178-207 | a finished write starts the next read |
| ConsoleOutput.RewritesAreSubstitution | project4/src/consoleCgi/src/Console.cpp:161-165 | whole-string rewrites, none of which touches what an earlier one put in, are one substitution per character |
| ConsoleOutput.RenderOutput | project4/src/consoleCgi/src/Console.cpp:161-175 | the loop over the map computes that substitution, and the script wraps it with the session and the markup of its kind |
| ConsoleOutput.RenderIsQuoted | project4/src/consoleCgi/src/Console.cpp:18-22 | the result has no quote, newline, angle bracket or lone backslash |
| ConsoleOutput.ScriptReadsOutput | project4/src/consoleCgi/src/Console.cpp:161-175 | the script appends to the element of the session the one string that was meant, in bold for a command and in bold with the class of errors for an error, if and only if the text has no carriage return |
| ConsoleOutput.RenderInjective | project4/src/consoleCgi/src/Console.cpp:18-22 | different texts look different |

## Left out

- System calls and their failures: `fork`, `execvp`, `dup2`, `waitpid`, `select` and signals appear only by their effect on slots, descriptors and events.
- What external commands compute, and how several writers of one pipe interleave in it: the model fixes who is connected to whom.
- Descriptor numbers in the single-process server: its slots hold pipe identities, and a pipe is open or closed as a whole; single descriptors and the child's table are modelled for the stand-alone shell.
- A pid left over in a variable that was never set is taken to be a natural number like every other.
- Signed integers in the shared texts and overflow of `sscanf`, `stoi` and the pipe counter: numbers are naturals without a bound.
- The capacity of the shared memory, creating and removing the semaphore, `SEM_UNDO`, and a process that dies inside its critical section.
- The FIFO files and dummy descriptors of the multi-process server's pipes; its numbered pipes repeat the ones modelled.
- Removal that reads a user through an iterator it has erased: the user is looked up first, as is meant.
- The comparison with the wrong map's end in `getUserByFd` and `getUserByPid`: keys are shown to be present where they are used (`Interleaving.NeverNotFound`).
- `who`, `yell`, `tell` and broadcasts within a line of the single-process server: they change no id, socket, name or pipe.
- UserPipeServer.NameCommand: `name` without an argument does nothing, where the original reads an argument that is not there.
- AddressFilter.Firewall.IsPermit: requires filters whose only punctuation is the dot and the star; other filter texts may throw while the expression is built.
- AddressFilter.TranslationKeepsMeaning: texts are of one line, and the line and paragraph separators U+2028 and U+2029 are not told apart from other characters.
- SocksRequest.ParseRequest: a buffer without the NULs that the strings need gives no request, where the original reads on.
- SocksRequest.RoundTripIff: user id and domain name contain no NUL, as C strings cannot.
- Relay.SocksSession.OnReply: how a reply interleaves on the client socket with relayed bytes, and the byte order of the second reply to BIND.
- Relay.RelayConserves: completions that the library could no longer deliver after a close are still allowed.
- Name resolution, the CGI pages, the HTTP server, the console's sessions, the test clients and the sample commands, which would add only easy members.
- History file, prompts, welcome and error texts.
