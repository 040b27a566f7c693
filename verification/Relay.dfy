/** A SOCKS session: the request is read and checked, a tunnel is set up, and bytes are relayed both ways
    by completion handlers that may run in any order. */
module Relay {
  import opened Text
  import opened SocksRequest
  import opened AddressFilter

  // ---------- one session, as its handlers see it ----------

  /** The one operation a direction has pending: a read from its source, or a write of a chunk to its
      destination. */
  datatype Flow = Unstarted | Reading | Writing(chunk: seq<Byte>) | Stopped

  /** The bytes got from the source so far, and the bytes the destination has been sent. */
  datatype Direction = Direction(flow: Flow, got: seq<Byte>, sent: seq<Byte>)

  datatype Phase = AwaitingRequest | Tunnelling | Relaying | Ended

  datatype Target = Target(command: Command, ip: Ip)

  datatype Session = Session(
    phase: Phase, accept: bool, clientOpen: bool, serverOpen: bool, replies: nat,
    up: Direction, down: Direction, target: Option<Target>, strayed: bool)

  /** `Up` is from the client to the server. */
  datatype Side = Up | Down

  /** The completions the event loop can deliver. A failed write may have sent part of its chunk. */
  datatype Event =
    | RequestRead(buffer: seq<Byte>, resolved: Ip)
    | RequestFailed
    | TunnelReady
    | TunnelFailed
    | ReadDone(side: Side, data: seq<Byte>)
    | ReadFailed(side: Side)
    | WriteDone(side: Side)
    | WriteFailed(side: Side, count: nat)
    | ReplyDone(ok: bool)

  const IDLE := Direction(Unstarted, [], [])

  const NEW_SESSION := Session(AwaitingRequest, false, true, false, 0, IDLE, IDLE, None, false)

  const BUF_SIZE: nat := 1048576

  function Of(s: Session, side: Side): Direction {
    if side.Up? then s.up else s.down
  }

  function With(s: Session, side: Side, d: Direction): Session {
    if side.Up? then s.(up := d) else s.(down := d)
  }

  function CloseBoth(s: Session): Session {
    s.(clientOpen := false, serverOpen := false)
  }

  /** The address a request asks for, a domain name resolved. */
  function TargetOf(r: Request, resolved: Ip): Target {
    Target(CommandOf(r), if NeedDomainResolve(r.dstIp) then resolved else r.dstIp)
  }

  ghost predicate Permitted(config: Option<string>, target: Target) {
    config.Some? && Permits(config.value, target.command, target.ip)
  }

  /** `readSocks`: refuse, or set up the tunnel that the command asks for; a BIND request is answered at once. */
  ghost function OnRequest(config: Option<string>, s: Session, request: Request, resolved: Ip): Session {
    var target := TargetOf(request, resolved);
    var s' := s.(target := Some(target), accept := Permitted(config, target));
    if !s'.accept then s'.(phase := Ended, replies := s.replies + 1)
    else match target.command
      case Connect => s'.(phase := Tunnelling)
      case Bind => s'.(phase := Tunnelling, replies := s.replies + 1)
      case Other => s'.(phase := Ended, clientOpen := false, strayed := true)
  }

  /** What a relay completion does to its direction, and whether it reports an error; None when the
      direction is not waiting for it. */
  function Turn(d: Direction, e: Event): Option<(Direction, bool)> {
    match e
    case ReadDone(_, data) =>
      if d.flow.Reading? && |data| <= BUF_SIZE then Some((Direction(Writing(data), d.got + data, d.sent), false)) else None
    case ReadFailed(_) =>
      if d.flow.Reading? then Some((d.(flow := Stopped), true)) else None
    case WriteDone(_) =>
      if d.flow.Writing? then Some((Direction(Reading, d.got, d.sent + d.flow.chunk), false)) else None
    case WriteFailed(_, count) =>
      if d.flow.Writing? && count <= |d.flow.chunk| then
        Some((Direction(Stopped, d.got, d.sent + d.flow.chunk[..count]), true))
      else None
    case _ => None
  }

  predicate IsRelay(e: Event) {
    e.ReadDone? || e.ReadFailed? || e.WriteDone? || e.WriteFailed?
  }

  function HandleRelay(s: Session, e: Event): Session
    requires IsRelay(e)
  {
    match Turn(Of(s, e.side), e)
    case None => s
    case Some((d, failed)) => if failed then CloseBoth(With(s, e.side, d)) else With(s, e.side, d)
  }

  ghost function HandleSetup(config: Option<string>, s: Session, e: Event): Session {
    match e
    case RequestRead(buffer, resolved) =>
      if s.phase != AwaitingRequest then s
      else
        (match Parse(buffer)
         case None => s.(phase := Ended)
         case Some(request) => OnRequest(config, s, request, resolved))
    case RequestFailed => if s.phase == AwaitingRequest then s.(phase := Ended) else s
    case TunnelReady =>
      if s.phase != Tunnelling then s
      else s.(phase := Relaying, serverOpen := true, replies := s.replies + 1,
              up := s.up.(flow := Reading), down := s.down.(flow := Reading))
    case TunnelFailed =>
      if s.phase != Tunnelling then s
      else if s.target.Some? && s.target.value.command == Connect then
        s.(phase := Ended, accept := false, replies := s.replies + 1, clientOpen := false)
      else s.(phase := Ended, clientOpen := false)
    case ReplyDone(ok) =>
      if s.replies == 0 then s
      else
        var s' := s.(replies := s.replies - 1);
        if ok && !s.accept then s'.(clientOpen := false) else s'
    case _ => s
  }

  /** What a completion does; one that nobody is waiting for cannot happen and changes nothing. */
  ghost function Handle(config: Option<string>, s: Session, e: Event): Session {
    if IsRelay(e) then HandleRelay(s, e) else HandleSetup(config, s, e)
  }

  ghost function Run(config: Option<string>, events: seq<Event>): Session {
    if events == [] then NEW_SESSION
    else Handle(config, Run(config, events[..|events| - 1]), events[|events| - 1])
  }

  lemma RunStep(config: Option<string>, events: seq<Event>, e: Event)
    ensures Run(config, events + [e]) == Handle(config, Run(config, events), e)
  {
    assert (events + [e])[..|events|] == events;
  }

  // ---------- what every completion keeps ----------

  /** Nothing is lost, added or reordered: what was sent and the chunk in flight are what was got. */
  ghost predicate Conserved(d: Direction) {
    match d.flow
    case Unstarted => d.got == [] && d.sent == []
    case Reading => d.sent == d.got
    case Writing(chunk) => d.sent + chunk == d.got && |chunk| <= BUF_SIZE
    case Stopped => d.sent <= d.got
  }

  /** A tunnel exists only for a request that the firewall permits. */
  ghost predicate Guarded(config: Option<string>, s: Session) {
    && (s.phase == Tunnelling || s.phase == Relaying ==> s.accept && s.target.Some? && Permitted(config, s.target.value))
    && (!s.up.flow.Unstarted? || !s.down.flow.Unstarted? ==> s.phase == Relaying)
    && (s.phase == Relaying ==> !s.up.flow.Unstarted? && !s.down.flow.Unstarted?)
  }

  /** Once a direction has stopped, both sockets are closed for good. */
  ghost predicate Inv(config: Option<string>, s: Session) {
    && Conserved(s.up) && Conserved(s.down)
    && Guarded(config, s)
    && !s.strayed
    && (s.up.flow.Stopped? || s.down.flow.Stopped? ==> !s.clientOpen && !s.serverOpen)
  }

  lemma TurnConserves(d: Direction, e: Event)
    requires Conserved(d) && Turn(d, e).Some?
    ensures Conserved(Turn(d, e).value.0) && !Turn(d, e).value.0.flow.Unstarted?
    ensures !d.flow.Unstarted? && !d.flow.Stopped?
    ensures Turn(d, e).value.1 <==> Turn(d, e).value.0.flow.Stopped?
  {
    if e.WriteFailed? {
      assert d.sent + d.flow.chunk[..e.count] == (d.sent + d.flow.chunk)[..|d.sent| + e.count];
    }
  }

  lemma RelayKeepsInv(config: Option<string>, s: Session, e: Event)
    requires Inv(config, s) && IsRelay(e)
    ensures Inv(config, HandleRelay(s, e))
  {
    if Turn(Of(s, e.side), e).Some? {
      TurnConserves(Of(s, e.side), e);
    }
    hide Conserved, Permitted, Turn;
  }

  lemma RequestKeepsInv(config: Option<string>, s: Session, request: Request, resolved: Ip)
    requires Inv(config, s) && s.phase == AwaitingRequest
    ensures Inv(config, OnRequest(config, s, request, resolved))
  {
    hide Conserved;
  }

  lemma SetupKeepsInv(config: Option<string>, s: Session, e: Event)
    requires Inv(config, s) && !IsRelay(e)
    ensures Inv(config, HandleSetup(config, s, e))
  {
    hide Permitted, Parse, OnRequest;
    if e.RequestRead? && s.phase == AwaitingRequest && Parse(e.buffer).Some? {
      RequestKeepsInv(config, s, Parse(e.buffer).value, e.resolved);
    }
  }

  lemma HandleKeepsInv(config: Option<string>, s: Session, e: Event)
    requires Inv(config, s)
    ensures Inv(config, Handle(config, s, e))
  {
    if IsRelay(e) {
      RelayKeepsInv(config, s, e);
    } else {
      SetupKeepsInv(config, s, e);
    }
  }

  lemma {:induction false} RunKeepsInv(config: Option<string>, events: seq<Event>)
    ensures Inv(config, Run(config, events))
  {
    if events != [] {
      RunKeepsInv(config, events[..|events| - 1]);
      HandleKeepsInv(config, Run(config, events[..|events| - 1]), events[|events| - 1]);
    }
  }

  /** For every sequence of completions and in each direction: the destination has a prefix of what the
      source sent, short of it by exactly the chunk being written. */
  lemma RelayConserves(config: Option<string>, events: seq<Event>, side: Side)
    ensures var d := Of(Run(config, events), side);
            && d.sent <= d.got
            && (d.flow.Reading? ==> d.sent == d.got)
            && (d.flow.Writing? ==> d.sent + d.flow.chunk == d.got)
  {
    RunKeepsInv(config, events);
  }

  /** Not a byte is relayed unless the firewall permits the request, and the branch for a permitted
      command that is neither CONNECT nor BIND is never taken. */
  lemma NothingUnlessPermitted(config: Option<string>, events: seq<Event>, side: Side)
    ensures var s := Run(config, events);
            && !s.strayed
            && (Of(s, side).got != [] || s.serverOpen ==>
                  s.target.Some? && Permitted(config, s.target.value) && s.target.value.command != Other)
  {
    RunKeepsInv(config, events);
    ServerOpenRelays(config, events);
  }

  lemma {:induction false} ServerOpenRelays(config: Option<string>, events: seq<Event>)
    ensures Run(config, events).serverOpen ==> Run(config, events).phase == Relaying
  {
    if events != [] {
      ServerOpenRelays(config, events[..|events| - 1]);
      ServerOpenStep(config, Run(config, events[..|events| - 1]), events[|events| - 1]);
      hide Handle;
    }
  }

  lemma ServerOpenStep(config: Option<string>, s: Session, e: Event)
    requires s.serverOpen ==> s.phase == Relaying
    ensures Handle(config, s, e).serverOpen ==> Handle(config, s, e).phase == Relaying
  {
    hide Permitted, Parse;
  }

  /** Nothing already sent or got is ever taken back. */
  lemma HandleGrows(config: Option<string>, s: Session, e: Event, side: Side)
    ensures Of(s, side).got <= Of(Handle(config, s, e), side).got
    ensures Of(s, side).sent <= Of(Handle(config, s, e), side).sent
  {
    if !IsRelay(e) {
      SetupKeepsBytes(config, s, e, side);
    } else {
      RelayGrows(s, e, side);
    }
    hide HandleSetup, HandleRelay, Of;
  }

  lemma RelayGrows(s: Session, e: Event, side: Side)
    requires IsRelay(e)
    ensures Of(s, side).got <= Of(HandleRelay(s, e), side).got && Of(s, side).sent <= Of(HandleRelay(s, e), side).sent
  {
    TurnGrows(Of(s, e.side), e);
    hide Turn;
  }

  lemma TurnGrows(d: Direction, e: Event)
    requires IsRelay(e)
    ensures Turn(d, e).Some? ==> d.got <= Turn(d, e).value.0.got && d.sent <= Turn(d, e).value.0.sent
  {
  }

  lemma SetupKeepsBytes(config: Option<string>, s: Session, e: Event, side: Side)
    ensures Of(s, side).got == Of(HandleSetup(config, s, e), side).got
    ensures Of(s, side).sent == Of(HandleSetup(config, s, e), side).sent
  {
    hide Permitted, Parse;
  }

  // ---------- the request, told by its bytes ----------

  /** The address that a packet asks for: its four bytes, or, for 0.0.0.1 to 0.0.0.255, the bytes of the address
      that the domain name resolves to. */
  predicate AsksForBytes(packet: seq<Byte>, resolved: Ip, b0: nat, b1: nat, b2: nat, b3: nat)
    requires |packet| >= 8
  {
    if packet[4] == 0 && packet[5] == 0 && packet[6] == 0 && packet[7] != 0 then HasBytes(resolved, b0, b1, b2, b3)
    else b0 == packet[4] as int && b1 == packet[5] as int && b2 == packet[6] as int && b3 == packet[7] as int
  }

  /** The same as text. */
  ghost predicate AsksFor(packet: seq<Byte>, resolved: Ip, address: string)
    requires |packet| >= 8
  {
    exists b0: nat, b1: nat, b2: nat, b3: nat ::
      && AsksForBytes(packet, resolved, b0, b1, b2, b3)
      && address == Decimal(b0) + ("." + (Decimal(b1) + ("." + (Decimal(b2) + ("." + Decimal(b3))))))
  }

  /** The tunnel is being set up, and so many replies are out. */
  predicate SettingUp(s: Session, replies: nat) {
    s.phase == Tunnelling && s.replies == replies && s.accept && s.clientOpen
  }

  /** The session is over but for one reply, after which the client is closed. */
  predicate Refusing(s: Session) {
    s.phase == Ended && s.replies == 1 && !s.accept
  }

  ghost predicate LineFor(config: Option<string>, key: string, address: string) {
    config.Some? && Listed(config.value, key, address)
  }

  lemma FirstRequest(config: Option<string>, packet: seq<Byte>, resolved: Ip)
    requires Parse(packet).Some?
    ensures Run(config, [RequestRead(packet, resolved)]) == OnRequest(config, NEW_SESSION, Parse(packet).value, resolved)
  {
    hide Parse, OnRequest;
    var e := RequestRead(packet, resolved);
    assert [] + [e] == [e];
    RunStep(config, [], e);
    assert Run(config, []) == NEW_SESSION;
    hide Run;
  }

  lemma AskedAddress(packet: seq<Byte>, resolved: Ip, address: string) returns (b0: nat, b1: nat, b2: nat, b3: nat)
    requires Parse(packet).Some? && AsksFor(packet, resolved, address)
    ensures HasBytes(TargetOf(Parse(packet).value, resolved).ip, b0, b1, b2, b3)
    ensures address == Decimal(b0) + ("." + (Decimal(b1) + ("." + (Decimal(b2) + ("." + Decimal(b3))))))
  {
    ParsedBytes(packet);
    hide Parse, Decimal, AsksForBytes, HasBytes, TargetOf;
    b0, b1, b2, b3 :|
      && AsksForBytes(packet, resolved, b0, b1, b2, b3)
      && address == Decimal(b0) + ("." + (Decimal(b1) + ("." + (Decimal(b2) + ("." + Decimal(b3))))));
    AskedIp(packet, resolved, b0, b1, b2, b3);
  }

  lemma AskedIp(packet: seq<Byte>, resolved: Ip, b0: nat, b1: nat, b2: nat, b3: nat)
    requires Parse(packet).Some? && |packet| >= 8 && AsksForBytes(packet, resolved, b0, b1, b2, b3)
    ensures HasBytes(TargetOf(Parse(packet).value, resolved).ip, b0, b1, b2, b3)
  {
    ParsedBytes(packet);
    var r := Parse(packet).value;
    NamedByBytes(r.dstIp, packet[4], packet[5], packet[6], packet[7]);
    hide Parse, HasBytes, NeedDomainResolve;
  }

  lemma NamedByBytes(ip: Ip, a: Byte, b: Byte, c: Byte, d: Byte)
    requires HasBytes(ip, a, b, c, d)
    ensures NeedDomainResolve(ip) <==> a == 0 && b == 0 && c == 0 && d != 0
  {
  }

  lemma AskedCommand(packet: seq<Byte>)
    requires Parse(packet).Some?
    ensures CommandOf(Parse(packet).value) ==
            if packet[1] == 1 then Connect else if packet[1] == 2 then Bind else AddressFilter.Other
  {
    ParsedBytes(packet);
    hide Parse, HasBytes;
  }

  /** What a new session does with a request, from the second byte of the packet on. With 1, CONNECT, it sets up the
      tunnel if and only if a line `permit c f` fits the address; with 2, BIND, it sets up the tunnel and replies at
      once if and only if a line `permit b f` does; and every other request gets exactly one refusal. */
  lemma RequestByBytes(config: Option<string>, packet: seq<Byte>, resolved: Ip, address: string)
    requires Parse(packet).Some? && AsksFor(packet, resolved, address)
    ensures var s := Run(config, [RequestRead(packet, resolved)]);
            if packet[1] == 1 && LineFor(config, "c", address) then SettingUp(s, 0)
            else if packet[1] == 2 && LineFor(config, "b", address) then SettingUp(s, 1)
            else Refusing(s)
  {
    hide Run, Parse, Decimal, HasBytes, Permits, Listed, NeedDomainResolve, AsksFor;
    FirstRequest(config, packet, resolved);
    var b0, b1, b2, b3 := AskedAddress(packet, resolved, address);
    AskedCommand(packet);
    if config.Some? {
      PermitsMeaning(config.value, TargetOf(Parse(packet).value, resolved).ip, b0, b1, b2, b3);
    }
    hide CommandOf;
  }

  lemma SecondEvent(config: Option<string>, first: Event, second: Event)
    ensures Run(config, [first, second]) == Handle(config, Run(config, [first]), second)
  {
    hide Handle;
    assert [first] + [second] == [first, second];
    RunStep(config, [first], second);
    hide Run;
  }

  /** And how the tunnel's outcome ends the handshake. Once it is there, both directions start to read, with one
      reply in all for CONNECT and two for BIND. If it fails, CONNECT gets its one reply, a refusal, and BIND no
      other than the one it has; the client is closed. */
  lemma TunnelByBytes(config: Option<string>, packet: seq<Byte>, resolved: Ip, address: string)
    requires Parse(packet).Some? && AsksFor(packet, resolved, address)
    requires (packet[1] == 1 && LineFor(config, "c", address)) || (packet[1] == 2 && LineFor(config, "b", address))
    ensures var s := Run(config, [RequestRead(packet, resolved), TunnelReady]);
            && s.phase == Relaying && s.accept && s.clientOpen && s.serverOpen && s.replies == packet[1]
            && s.up == s.down == Direction(Reading, [], [])
    ensures var s := Run(config, [RequestRead(packet, resolved), TunnelFailed]);
            && s.phase == Ended && !s.clientOpen && !s.serverOpen && s.replies == 1
            && (s.accept <==> packet[1] == 2) && s.up == s.down == IDLE
  {
    hide Run, Parse, Decimal, HasBytes, Permits, Listed, NeedDomainResolve, AsksFor, LineFor, OnRequest;
    RequestByBytes(config, packet, resolved, address);
    FirstRequest(config, packet, resolved);
    AskedCommand(packet);
    RequestTarget(config, Parse(packet).value, resolved);
    SecondEvent(config, RequestRead(packet, resolved), TunnelReady);
    SecondEvent(config, RequestRead(packet, resolved), TunnelFailed);
  }

  lemma RequestTarget(config: Option<string>, request: Request, resolved: Ip)
    ensures var s := OnRequest(config, NEW_SESSION, request, resolved);
            s.target.Some? && s.target.value.command == CommandOf(request) && s.up == s.down == IDLE && !s.serverOpen
  {
    hide Permitted;
  }

  /** Every packet asks for an address. */
  lemma SomeAddress(packet: seq<Byte>, resolved: Ip) returns (address: string)
    requires |packet| >= 8
    ensures AsksFor(packet, resolved, address)
  {
    var b0: nat, b1: nat, b2: nat, b3: nat := packet[4], packet[5], packet[6], packet[7];
    if packet[4] == 0 && packet[5] == 0 && packet[6] == 0 && packet[7] != 0 {
      b0, b1, b2, b3 := AddressHasBytes(resolved);
    }
    assert AsksForBytes(packet, resolved, b0, b1, b2, b3);
    hide AsksForBytes, HasBytes, Decimal;
    address := Decimal(b0) + ("." + (Decimal(b1) + ("." + (Decimal(b2) + ("." + Decimal(b3))))));
  }

  // ---------- the handlers, on fixed buffers ----------

  /** `memset(buffer, 0, BUF_SIZE)`. */
  method Clear(buffer: array<Byte>)
    modifies buffer
    ensures forall i | 0 <= i < buffer.Length :: buffer[i] == 0
  {
    forall i | 0 <= i < buffer.Length {
      buffer[i] := 0;
    }
  }

  /** One direction's pair of buffers and its pending operation. */
  class Channel {
    const readBuf: array<Byte>
    const writeBuf: array<Byte>
    var readPending: bool
    var writePending: Option<nat>
    var started: bool
    ghost var got: seq<Byte>
    ghost var sent: seq<Byte>

    ghost predicate Valid()
      reads this, writeBuf
    {
      && readBuf != writeBuf && readBuf.Length == writeBuf.Length == BUF_SIZE
      && !(readPending && writePending.Some?)
      && (writePending.Some? ==> writePending.value <= BUF_SIZE)
      && (readPending || writePending.Some? ==> started)
    }

    ghost function Flow(): Flow
      requires Valid()
      reads this, writeBuf
    {
      if readPending then Reading
      else if writePending.Some? then Writing(writeBuf[..writePending.value])
      else if started then Stopped else Unstarted
    }

    ghost function Abs(): Direction
      requires Valid()
      reads this, writeBuf
    {
      Direction(Flow(), got, sent)
    }

    /** Whether this completion is the one of the operation that is pending. */
    predicate Awaits(e: Event)
      requires Valid()
      reads this, writeBuf
      ensures Awaits(e) <==> Turn(Abs(), e).Some?
    {
      match e
      case ReadDone(_, data) => readPending && |data| <= BUF_SIZE
      case ReadFailed(_) => readPending
      case WriteDone(_) => writePending.Some?
      case WriteFailed(_, count) => writePending.Some? && count <= writePending.value
      case _ => false
    }

    constructor ()
      ensures Valid() && Abs() == IDLE && fresh(readBuf) && fresh(writeBuf)
    {
      readBuf := new Byte[BUF_SIZE];
      writeBuf := new Byte[BUF_SIZE];
      readPending, writePending, started := false, None, false;
      got, sent := [], [];
    }

    /** `readFromClient` and `readFromServer`; nothing may be pending in this direction. */
    method StartRead()
      requires Valid() && !readPending && writePending.None?
      modifies this`readPending, this`started, readBuf
      ensures Valid() && Abs() == old(Abs()).(flow := Reading)
    {
      Clear(readBuf);
      readPending, started := true, true;
    }

    /** The read completes: the loop has put the data into the read buffer; the handler copies it into the
        write buffer, which no write is using, and starts the write. */
    method OnRead(data: seq<Byte>)
      requires Valid() && readPending && |data| <= BUF_SIZE
      modifies this`readPending, this`writePending, this`got, readBuf, writeBuf
      ensures Valid() && Abs() == Direction(Writing(data), old(got) + data, old(sent))
    {
      CopyInto(readBuf, 0, data);
      got := got + data;
      readPending := false;
      var length := |data|;
      Clear(writeBuf);
      CopyInto(writeBuf, 0, readBuf[..length]);
      StartWrite(length);
      assert writeBuf[..length] == data;
    }

    /** `writeToServer` and `writeToClient`. */
    method StartWrite(length: nat)
      requires Valid() && !readPending && writePending.None? && started && length <= BUF_SIZE
      modifies this`writePending
      ensures Valid() && Abs() == old(Abs()).(flow := Writing(writeBuf[..length]))
    {
      writePending := Some(length);
    }

    /** The write completes: the buffer's bytes are the ones that have gone out; only now is it cleared. */
    method OnWritten()
      requires Valid() && writePending.Some?
      modifies this`readPending, this`writePending, this`started, this`sent, readBuf, writeBuf
      ensures Valid() && Abs() == Direction(Reading, old(got), old(sent) + old(writeBuf[..writePending.value]))
    {
      sent := sent + writeBuf[..writePending.value];
      writePending := None;
      Clear(writeBuf);
      StartRead();
    }

    method OnReadError()
      requires Valid() && readPending
      modifies this`readPending
      ensures Valid() && Abs() == old(Abs()).(flow := Stopped)
    {
      readPending := false;
    }

    method OnWriteError(ghost count: nat)
      requires Valid() && writePending.Some? && count <= writePending.value
      modifies this`writePending, this`sent
      ensures Valid() && Abs() == Direction(Stopped, old(got), old(sent) + old(writeBuf[..count]))
    {
      sent := sent + writeBuf[..count];
      writePending := None;
    }
  }

  class SocksSession {
    const firewall: Firewall
    const up: Channel
    const down: Channel
    var phase: Phase
    var accept: bool
    var clientOpen: bool
    var serverOpen: bool
    var replies: nat
    var target: Option<Target>
    var strayed: bool

    ghost predicate Valid()
      reads this, firewall, up, down, up.writeBuf, down.writeBuf
    {
      && up != down && {up.readBuf, up.writeBuf} !! {down.readBuf, down.writeBuf}
      && up.Valid() && down.Valid() && firewall.Valid()
      && (firewall.configFile.Some? ==> AllFilters(firewall.configFile.value))
    }

    ghost function Abs(): Session
      requires Valid()
      reads this, firewall, up, down, up.writeBuf, down.writeBuf
    {
      Session(phase, accept, clientOpen, serverOpen, replies, up.Abs(), down.Abs(), target, strayed)
    }

    constructor (config: Option<string>)
      requires config.Some? ==> AllFilters(config.value)
      ensures Valid() && Abs() == NEW_SESSION && firewall.configFile == config
      ensures fresh(firewall) && fresh(up) && fresh(down)
      ensures fresh(up.readBuf) && fresh(up.writeBuf) && fresh(down.readBuf) && fresh(down.writeBuf)
    {
      firewall := new Firewall(config);
      up := new Channel();
      down := new Channel();
      phase, accept, clientOpen, serverOpen, replies := AwaitingRequest, false, true, false, 0;
      target, strayed := None, false;
    }

    method ReplySocks()
      modifies this`replies
      ensures replies == old(replies) + 1
    {
      replies := replies + 1;
    }

    method ReadSocks(buffer: array<Byte>, resolved: Ip)
      requires Valid() && phase == AwaitingRequest
      requires buffer !in {up.readBuf, up.writeBuf, down.readBuf, down.writeBuf}
      modifies this, firewall
      ensures Valid() && Abs() == Handle(firewall.configFile, old(Abs()), RequestRead(buffer[..], resolved))
    {
      hide Parse, AllFilters, OnRequest, Channel.Valid, Channel.Flow, Firewall.Valid;
      var request := ParseRequest(buffer);
      if request.None? {
        phase := Ended;
      } else {
        Decide(request.value, resolved);
      }
    }

    method Decide(request: Request, resolved: Ip)
      requires Valid() && phase == AwaitingRequest
      modifies this, firewall
      ensures Valid() && Abs() == OnRequest(firewall.configFile, old(Abs()), request, resolved)
    {
      hide Permits, AllFilters, Channel.Valid, Channel.Flow, Firewall.Valid;
      var asked := TargetOf(request, resolved);
      target := Some(asked);
      accept := firewall.IsPermit(asked.command, asked.ip);
      if !accept {
        phase := Ended;
        ReplySocks();
        return;
      }
      if asked.command == Connect {
        phase := Tunnelling;
      } else if asked.command == Bind {
        phase := Tunnelling;
        ReplySocks();
      } else {
        phase := Ended;
        clientOpen := false;
        strayed := true;
      }
    }

    method OnTunnel(ok: bool)
      requires Valid() && phase == Tunnelling
      requires !up.readPending && up.writePending.None? && !down.readPending && down.writePending.None?
      modifies this, up, down, up.readBuf, down.readBuf
      ensures Valid()
      ensures Abs() == Handle(firewall.configFile, old(Abs()), if ok then TunnelReady else TunnelFailed)
    {
      hide AllFilters, Firewall.Valid, OnRequest, Parse, Permitted;
      if !ok {
        if target.Some? && target.value.command == Connect {
          accept := false;
          ReplySocks();
        }
        phase := Ended;
        clientOpen := false;
        return;
      }
      phase := Relaying;
      serverOpen := true;
      ReplySocks();
      up.StartRead();
      down.StartRead();
    }

    method OnReply(ok: bool)
      requires Valid() && replies > 0
      modifies this
      ensures Valid() && Abs() == Handle(firewall.configFile, old(Abs()), ReplyDone(ok))
    {
      replies := replies - 1;
      if ok && !accept {
        clientOpen := false;
      }
    }

    /** The four relay handlers; `channel` is the direction whose operation has completed. */
    method OnRelay(e: Event)
      requires Valid() && IsRelay(e) && Turn(Of(Abs(), e.side), e).Some?
      modifies this, up, down, up.readBuf, up.writeBuf, down.readBuf, down.writeBuf
      ensures Valid() && Abs() == Handle(firewall.configFile, old(Abs()), e)
    {
      hide AllFilters, Firewall.Valid, Channel.Flow;
      var channel := if e.side.Up? then up else down;
      OnChannel(channel, e);
      if e.ReadFailed? || e.WriteFailed? {
        clientOpen := false;
        serverOpen := false;
      }
    }

    /** The event loop delivers a completion. A completion is delivered only for an operation that is pending;
        the handlers then find what they rely on: one operation at a time in each direction, and no buffer
        rewritten while its write is pending. */
    method Deliver(e: Event, ghost events: seq<Event>)
      requires Valid() && Abs() == Run(firewall.configFile, events)
      modifies this, firewall, up, down, up.readBuf, up.writeBuf, down.readBuf, down.writeBuf
      ensures Valid() && Abs() == Run(firewall.configFile, events + [e])
    {
      hide Conserved, Permitted, Channel.Valid, Channel.Flow, Firewall.Valid, AllFilters, HandleRelay, HandleSetup;
      RunStep(firewall.configFile, events, e);
      RunKeepsInv(firewall.configFile, events);
      if IsRelay(e) {
        DeliverRelay(e);
      } else {
        DeliverSetup(e);
      }
    }

    method DeliverRelay(e: Event)
      requires Valid() && IsRelay(e)
      modifies this, up, down, up.readBuf, up.writeBuf, down.readBuf, down.writeBuf
      ensures Valid() && Abs() == Handle(firewall.configFile, old(Abs()), e)
    {
      hide Channel.Valid, Channel.Flow, Firewall.Valid, AllFilters, Turn;
      var channel := if e.side.Up? then up else down;
      if channel.Awaits(e) {
        OnRelay(e);
      }
    }

    method DeliverSetup(e: Event)
      requires Valid() && !IsRelay(e) && Inv(firewall.configFile, Abs())
      modifies this, firewall, up, down, up.readBuf, down.readBuf
      ensures Valid() && Abs() == Handle(firewall.configFile, old(Abs()), e)
    {
      hide Conserved, Permitted, Channel.Valid, Firewall.Valid, AllFilters, OnRequest, Parse;
      match e {
        case RequestRead(bytes, resolved) =>
          if phase == AwaitingRequest {
            var buffer := new Byte[|bytes|](i requires 0 <= i < |bytes| => bytes[i]);
            assert buffer[..] == bytes;
            ReadSocks(buffer, resolved);
          }
        case RequestFailed =>
          if phase == AwaitingRequest {
            phase := Ended;
          }
        case TunnelReady =>
          if phase == Tunnelling {
            OnTunnel(true);
          }
        case TunnelFailed =>
          if phase == Tunnelling {
            OnTunnel(false);
          }
        case ReplyDone(ok) =>
          if replies > 0 {
            OnReply(ok);
          }
        case _ =>
      }
    }

    /** Every sequence of completions, from a new session on. */
    method Serve(events: seq<Event>)
      requires Valid() && Abs() == NEW_SESSION
      modifies this, firewall, up, down, up.readBuf, up.writeBuf, down.readBuf, down.writeBuf
      ensures Valid() && Abs() == Run(firewall.configFile, events)
    {
      for i := 0 to |events|
        invariant Valid() && Abs() == Run(firewall.configFile, events[..i])
      {
        hide *;
        assert events[..i] + [events[i]] == events[..i + 1];
        Deliver(events[i], events[..i]);
      }
      assert events[..|events|] == events;
    }
  }

  method OnChannel(channel: Channel, e: Event)
    requires channel.Valid() && IsRelay(e) && Turn(channel.Abs(), e).Some?
    modifies channel, channel.readBuf, channel.writeBuf
    ensures channel.Valid() && channel.Abs() == Turn(old(channel.Abs()), e).value.0
  {
    match e
    case ReadDone(_, data) => channel.OnRead(data);
    case WriteDone(_) => channel.OnWritten();
    case ReadFailed(_) => channel.OnReadError();
    case WriteFailed(_, count) => channel.OnWriteError(count);
  }
}
