/** The host's side of an OPAL session against an arbitrary device: one exchange, the
    session steps, and the unlock sequence (opal/src/session.rs, opal/src/lib.rs). */
module Session {
  import opened Streams
  import opened Tokens
  import opened Response
  import opened Command

  const RECV_SIZE := 2048

  type Packet = p: seq<byte> | |p| == 2048 witness seq(2048, _ => 0)

  datatype Received = RecvErr | Received(packet: Packet)

  /** A device with internal state `S` and any behaviour: what it does with a sent
      packet, with a poll, and with a controller reconnect. */
  datatype Device<!S> = Device(
    send: (S, seq<byte>) -> (S, bool),
    recv: S -> (S, Received),
    reconnect: S -> (S, bool),
    patience: S -> nat)

  /** The answer that ends the polling loop. */
  predicate Final(r: Received) {
    r.RecvErr? || OutstandingOf(r.packet) == 0 || MinTransferOf(r.packet) != 0
  }

  /** The device does not keep the host polling for ever. */
  ghost predicate Answers<S(!new)>(dev: Device<S>) {
    forall s :: Final(dev.recv(s).1) || dev.patience(dev.recv(s).0) < dev.patience(s)
  }

  datatype Error =
    | Io
    | Status(code: byte)
    | NoMethodStatus
    | RawKeyInvalidLength
    | Pbkdf

  /** How an operation ends; a panic ends the run. */
  datatype Reply = Ok(tokens: seq<seq<byte>>) | Failed(error: Error) | Panicked

  datatype Ids = Ids(tsn: u32, hsn: u32)

  datatype Event =
    | Sent(protocol: nat, command: OpalCommand)
    | Answered(reply: Reply)
    | Reconnected(ok: bool)

  datatype Host<!S> = Host(dev: Device<S>, comId: nat, isEprise: bool)

  /** The device state and everything the host has done so far. */
  datatype World<S> = World(state: S, log: seq<Event>)

  // ----- one exchange -----

  /** Poll until the device's answer is final. */
  ghost function Poll<S(!new)>(dev: Device<S>, s: S): (S, Received)
    requires Answers(dev)
    decreases dev.patience(s)
  {
    var (s', r) := dev.recv(s);
    if Final(r) then (s', r) else Poll(dev, s')
  }

  predicate IsToken(tokens: seq<seq<byte>>, i: int, b: byte) {
    0 <= i < |tokens| && tokens[i] == [b]
  }

  /** The method status list ends the response. */
  predicate HasStatus(tokens: seq<seq<byte>>) {
    var len := |tokens|;
    && len >= 6
    && IsToken(tokens, len - 6, ENDOFDATA)
    && IsToken(tokens, len - 5, STARTLIST)
    && IsToken(tokens, len - 1, ENDLIST)
  }

  /** What `send_raw_command` makes of a received packet. */
  function Classify(packet: Packet, eod: bool): Reply {
    if ComPacketLenOf(packet) + 20 > RECV_SIZE then Panicked
    else
      match Parse(packet, HEADER_SIZE, HEADER_SIZE + SubpacketLenOf(packet))
      case None => Panicked
      case Some(tokens) => Verdict(tokens, eod)
  }

  /** Success needs a status list that says so. */
  function Verdict(tokens: seq<seq<byte>>, eod: bool): Reply {
    if !eod || !HasStatus(tokens) then Failed(NoMethodStatus)
    else if tokens[|tokens| - 4] == [] then Panicked
    else
      match UintOf(tokens[|tokens| - 4])
      case NumberPanic => Panicked
      case Number(n) => if n % 256 != 0 then Failed(Status(n % 256)) else Ok(tokens)
  }

  ghost function Exchange<S(!new)>(h: Host<S>, s: S, c: OpalCommand): (S, Reply)
    requires Answers(h.dev)
  {
    var (s1, sent) := h.dev.send(s, Wire(c));
    if !sent then (s1, Failed(Io))
    else
      var (s2, r) := Poll(h.dev, s1);
      (s2, if r.RecvErr? then Failed(Io) else Classify(r.packet, c.eod))
  }

  // ----- commands -----

  function Uid(n: u64): (r: seq<byte>)
    ensures |r| == 8
  {
    BigEndian(n, 8)
  }

  const SMUID := 0xFF
  const LOCKINGSP := 0x20500000002
  const ADMIN1 := 0x900010001
  const LOCKINGRANGE_GLOBAL := 0x80200000001
  const MBRCONTROL := 0x80300000001
  const STARTSESSION := 0xFF02
  const SET := 0x600000017

  const HOST_SESSION := 105

  type Key = k: seq<byte> | |k| == 32 witness seq(32, _ => 0)

  /** A tree the writers can print. */
  type Tree = ts: TokenList | WritableList(ts) witness Nil

  function Push(ts: Tree, t: Token): Tree
    requires Writable(t)
  {
    Cons(t, ts)
  }

  function Tokens1(a: Token): Tree
    requires Writable(a)
  {
    Push(Nil, a)
  }

  function Tokens2(a: Token, b: Token): Tree
    requires Writable(a) && Writable(b)
  {
    Push(Tokens1(a), b)
  }

  /** A method call: the object, the method, and the argument list. */
  function CallOn(uid: u64, method_: u64, args: Tree): Tree {
    Push(CallTokens(Uid(uid), Uid(method_)), List(args))
  }

  const SESSION_TIMEOUT: seq<byte> := [83, 101, 115, 115, 105, 111, 110, 84, 105, 109, 101, 111, 117, 116]

  /** A named value whose name is a column or parameter number. */
  function Numbered(n: byte, value: Token): (t: Token)
    requires n < 0x40 && Writable(value)
    ensures Writable(t)
  {
    Name(Simple(n), value)
  }

  function Timeout(): (t: Token)
    ensures Writable(t)
  {
    Name(Bytes(SESSION_TIMEOUT), Uint(60000))
  }

  /** A secret to authenticate with, short enough to be written. */
  type Challenge = c: seq<byte> | |c| < 2048

  /** The arguments of StartSession: our session number, the security provider, write
      access, then the challenge, if there is one (or, on enterprise drives, a timeout). */
  function StartWith(eprise: bool, sp: u64, authority: u64, challenge: Option<Challenge>): Tree {
    var signed := if eprise || challenge.None? then Nil
                  else Tokens2(Numbered(0x00, Bytes(challenge.value)), Numbered(0x03, BS8(Uid(authority))));
    var timeout := if eprise then Timeout() else Stream(Nil);
    var fixed := Push(Tokens2(Uint(HOST_SESSION), BS8(Uid(sp))), Simple(0x01));
    CallOn(SMUID, STARTSESSION, Push(Push(fixed, Stream(signed)), timeout))
  }

  /** The start of an unlock. */
  function StartCall(eprise: bool, key: Key): Tree {
    StartWith(eprise, LOCKINGSP, ADMIN1, Some(key))
  }

  datatype LockingState = ReadWrite | ReadOnly | Locked | ArchiveLocked | ArchiveUnlocked

  /** The UID of a locking range: the global range, or range `n`. */
  function RangeUid(range: byte): u64 {
    if range == 0 then LOCKINGRANGE_GLOBAL else 0x80200030000 + range
  }

  function TokenOf(b: bool): Token { Simple(if b then 0x01 else 0x00) }

  /** Set ReadLocked, and WriteLocked unless the state is one of the archive states. */
  function RangeCall(range: byte, state: LockingState): Tree {
    var readLocked := Numbered(0x07, TokenOf(state.Locked?));
    var writeLocked := if state.ArchiveLocked? || state.ArchiveUnlocked? then Stream(Nil)
                       else Numbered(0x08, TokenOf(state.ReadOnly? || state.Locked?));
    SetCall(RangeUid(range), Tokens2(readLocked, writeLocked))
  }

  function MbrCall(done: bool): Tree {
    SetCall(MBRCONTROL, Tokens1(Numbered(0x02, TokenOf(done))))
  }

  /** Set some columns of a table row. */
  function SetCall(uid: u64, columns: Tree): Tree {
    CallOn(uid, SET, Tokens1(Numbered(0x01, List(columns))))
  }

  function EndCall(): Tree {
    Tokens1(Simple(ENDOFSESSION))
  }

  /** The command a tree becomes in a session. */
  function CommandOf<S>(h: Host<S>, ids: Ids, tree: Tree, eod: bool): OpalCommand {
    SetSession(Build(Flat(RenderList(tree)), eod), h.comId, ids.tsn, ids.hsn)
  }

  // ----- the session -----

  ghost function SendTree<S(!new)>(h: Host<S>, w: World<S>, ids: Ids, tree: Tree, eod: bool): (World<S>, Reply)
    requires Answers(h.dev)
  {
    var c := CommandOf(h, ids, tree, eod);
    var (s, reply) := Exchange(h, w.state, c);
    (World(s, w.log + [Sent(1, c), Answered(reply)]), reply)
  }

  /** The session numbers a response to StartSession carries. */
  function IdsOf(tokens: seq<seq<byte>>): Option<Ids> {
    if |tokens| < 6 || tokens[4] == [] || tokens[5] == [] then None
    else
      match (UintOf(tokens[4]), UintOf(tokens[5]))
      case (Number(hsn), Number(tsn)) => Some(Ids(tsn % TWO_32, hsn % TWO_32))
      case _ => None
  }

  /** Dropping a session ends it; what the device says to that is only logged. */
  ghost function EndSession<S(!new)>(h: Host<S>, w: World<S>, ids: Ids, result: Reply): (World<S>, Reply)
    requires Answers(h.dev)
  {
    var (w', reply) := SendTree(h, w, ids, EndCall(), false);
    (w', if reply.Panicked? then Panicked else result)
  }

  datatype Secret = Password(password: seq<byte>) | Raw(bytes: seq<byte>)

  /** The 32-byte key of a secret; key derivation is an oracle. */
  function KeyOf(derive: seq<byte> -> Option<Key>, secret: Secret): (r: (Option<Key>, Error))
    ensures secret.Raw? ==> (r.0.Some? <==> |secret.bytes| == 32)
    ensures secret.Raw? && r.0.Some? ==> r.0.value == secret.bytes
  {
    match secret
    case Password(p) => (derive(p), Pbkdf)
    case Raw(bytes) => (if |bytes| == 32 then Some(bytes) else None, RawKeyInvalidLength)
  }

  /** `OpalDrive::unlock` once the key is known. */
  ghost function UnlockRun<S(!new)>(h: Host<S>, w: World<S>, key: Key): (World<S>, Reply)
    requires Answers(h.dev)
  {
    var noIds := Ids(0, 0);
    var (w1, r1) := SendTree(h, w, noIds, StartCall(h.isEprise, key), true);
    if r1.Panicked? then (w1, Panicked)
    else if r1.Failed? then EndSession(h, w1, noIds, r1)
    else if IdsOf(r1.tokens).None? || h.isEprise then (w1, Panicked)
    else
      UnlockLocks(h, w1, IdsOf(r1.tokens).value)
  }

  /** What an unlock does in its session. */
  ghost function UnlockLocks<S(!new)>(h: Host<S>, w1: World<S>, ids: Ids): (World<S>, Reply)
    requires Answers(h.dev)
  {
    var (w2, r2) := SendTree(h, w1, ids, RangeCall(0, ReadWrite), true);
    if r2.Panicked? then (w2, Panicked)
    else if r2.Failed? then EndSession(h, w2, ids, r2)
    else
      var (w3, r3) := SendTree(h, w2, ids, MbrCall(true), true);
      if r3.Panicked? then (w3, Panicked)
      else if r3.Failed? then EndSession(h, w3, ids, r3)
      else
        var (w4, r4) := EndSession(h, w3, ids, Ok([]));
        if r4.Panicked? then (w4, Panicked)
        else
          var (s5, ok) := h.dev.reconnect(w4.state);
          (World(s5, w4.log + [Reconnected(ok)]), if ok then Ok([]) else Failed(Io))
  }

  // ----- every trace -----

  /** The commands of a complete unlock, in order. */
  function Script<S>(h: Host<S>, key: Key, ids: Ids): seq<OpalCommand> {
    [CommandOf(h, Ids(0, 0), StartCall(h.isEprise, key), true),
     CommandOf(h, ids, RangeCall(0, ReadWrite), true),
     CommandOf(h, ids, MbrCall(true), true)]
  }

  /** The events of sending each command and getting its reply. */
  function Exchanges(commands: seq<OpalCommand>, replies: seq<Reply>): seq<Event>
    requires |commands| == |replies|
  {
    if commands == [] then []
    else
      var k := |commands| - 1;
      Exchanges(commands[..k], replies[..k]) + [Sent(1, commands[k]), Answered(replies[k])]
  }

  lemma OneMore(log: seq<Event>, commands: seq<OpalCommand>, replies: seq<Reply>, c: OpalCommand, r: Reply)
    requires |commands| == |replies|
    ensures log + Exchanges(commands, replies) + [Sent(1, c), Answered(r)]
      == log + Exchanges(commands + [c], replies + [r])
  {
    assert (commands + [c])[..|commands|] == commands && (replies + [r])[..|commands|] == replies;
  }

  /** What the host does in one unlock, whatever the device answers: it sends a nonempty
      prefix of the script and then exactly one end-of-session, also when the session
      never started; it goes on only after success; it reconnects only after all three
      steps succeeded; and everything after a successful start carries the session
      numbers the device returned. */
  ghost predicate UnlockTrace<S>(h: Host<S>, key: Key, n: nat, ids: Ids, replies: seq<Reply>,
                                 events: seq<Event>, result: Reply)
  {
    var script := Script(h, key, ids);
    var last := CommandOf(h, if n == 1 then Ids(0, 0) else ids, EndCall(), false);
    && 1 <= n <= 3
    && |replies| == n + 1
    && (forall i | 0 <= i < n - 1 :: replies[i].Ok?)
    && (n >= 2 ==> IdsOf(replies[0].tokens) == Some(ids) && !h.isEprise)
    && var sends := Exchanges(script[..n] + [last], replies);
      if replies[n - 1].Failed? then
        events == sends && result == replies[n - 1]
      else
        && n == 3 && replies[2].Ok?
        && (   (events == sends + [Reconnected(true)] && result == Ok([]))
            || (events == sends + [Reconnected(false)] && result == Failed(Io)))
  }

  lemma UnlockTraces<S(!new)>(h: Host<S>, w: World<S>, key: Key) returns (n: nat, ids: Ids, replies: seq<Reply>)
    requires Answers(h.dev)
    requires !UnlockRun(h, w, key).1.Panicked?
    ensures w.log <= UnlockRun(h, w, key).0.log
    ensures UnlockTrace(h, key, n, ids, replies, UnlockRun(h, w, key).0.log[|w.log|..], UnlockRun(h, w, key).1)
  {
    hide Exchange, CommandOf, StartCall, RangeCall, MbrCall, EndCall, IdsOf, Exchanges;
    ids := Ids(0, 0);
    var log := w.log;
    var (w1, r1) := SendTree(h, w, ids, StartCall(h.isEprise, key), true);
    FirstSend(log, CommandOf(h, ids, StartCall(h.isEprise, key), true), r1);
    if r1.Ok? { ids := IdsOf(r1.tokens).value; }
    var c := Script(h, key, ids);
    var noIds := Ids(0, 0);
    var end := CommandOf(h, if r1.Ok? then ids else noIds, EndCall(), false);
    assert w1.log == log + Exchanges(c[..1], [r1]) by { assert c[..1] == [c[0]]; }
    if r1.Failed? {
      var r2 := SendTree(h, w1, ids, EndCall(), false).1;
      n, replies := 1, [r1, r2];
      assert [r1] + [r2] == replies;
      OneMore(log, c[..1], [r1], end, r2);
      Suffix(log, Exchanges(c[..1] + [end], replies));
      return;
    }
    var (w2, r2) := SendTree(h, w1, ids, RangeCall(0, ReadWrite), true);
    assert w2.log == log + Exchanges(c[..2], [r1, r2]) by {
      OneMore(log, c[..1], [r1], c[1], r2);
      assert c[..1] + [c[1]] == c[..2] && [r1] + [r2] == [r1, r2];
    }
    if r2.Failed? {
      var r3 := SendTree(h, w2, ids, EndCall(), false).1;
      n, replies := 2, [r1, r2, r3];
      assert [r1, r2] + [r3] == replies;
      OneMore(log, c[..2], [r1, r2], end, r3);
      Suffix(log, Exchanges(c[..2] + [end], replies));
      return;
    }
    var (w3, r3) := SendTree(h, w2, ids, MbrCall(true), true);
    assert w3.log == log + Exchanges(c[..3], [r1, r2, r3]) by {
      OneMore(log, c[..2], [r1, r2], c[2], r3);
      assert c[..2] + [c[2]] == c[..3] && [r1, r2] + [r3] == [r1, r2, r3];
    }
    var r4 := SendTree(h, w3, ids, EndCall(), false).1;
    n, replies := 3, [r1, r2, r3, r4];
    assert [r1, r2, r3] + [r4] == replies;
    OneMore(log, c[..3], [r1, r2, r3], end, r4);
    var sends := Exchanges(c[..3] + [end], replies);
    Suffix(log, sends);
    assert forall ok :: log + sends + [Reconnected(ok)] == log + (sends + [Reconnected(ok)]);
    Suffix(log, sends + [Reconnected(true)]);
    Suffix(log, sends + [Reconnected(false)]);
  }

  lemma FirstSend(log: seq<Event>, c: OpalCommand, r: Reply)
    ensures log + [Sent(1, c), Answered(r)] == log + Exchanges([c], [r])
  {
    assert [c][..0] == [];
    assert Exchanges([c], [r]) == [] + [Sent(1, c), Answered(r)];
  }

  lemma Suffix<T>(a: seq<T>, b: seq<T>)
    ensures (a + b)[|a|..] == b
  {
  }

  // ----- the implementation -----

  class SecureDevice<S(!new)> {
    const dev: Device<S>
    const comId: nat
    const isEprise: bool
    var state: S
    ghost var log: seq<Event>

    ghost function AsHost(): Host<S> {
      Host(dev, comId, isEprise)
    }

    ghost function Now(): World<S>
      reads this
    {
      World(state, log)
    }

    constructor (dev: Device<S>, comId: nat, isEprise: bool, state: S)
      ensures AsHost() == Host(dev, comId, isEprise)
    {
      this.dev, this.comId, this.isEprise, this.state := dev, comId, isEprise, state;
      log := [];
    }
  }

  /** A method call as the builder makes it. */
  method BuildCall(uid: u64, method_: u64, args: Tree) returns (c: OpalCommand)
    ensures c == Build(Flat(RenderList(CallOn(uid, method_, args))), true)
  {
    hide RenderList, Flat, Build;
    var builder := new OpalCommandBuilder.Call(Uid(uid), Uid(method_));
    var stream := new Buffer();
    WritableIsPrintable(List(args));
    Write(List(args), stream);
    builder.Payload(stream.bytes);
    c := builder.BuildEod(true);
    CallPrint(uid, method_, args);
    assert [] + Flat(Render(List(args))) == Flat(Render(List(args)));
  }

  lemma CallPrint(uid: u64, method_: u64, args: Tree)
    ensures Flat(RenderList(CallOn(uid, method_, args)))
      == Flat(RenderList(CallTokens(Uid(uid), Uid(method_)))) + Flat(Render(List(args)))
  {
    FlatConcat(RenderList(CallTokens(Uid(uid), Uid(method_))), Render(List(args)));
  }

  class OpalSession<S(!new)> {
    const device: SecureDevice<S>
    var tsn: u32
    var hsn: u32

    ghost function Numbers(): Ids
      reads this
    {
      Ids(tsn, hsn)
    }

    constructor (device: SecureDevice<S>)
      ensures this.device == device && Numbers() == Ids(0, 0)
    {
      this.device, tsn, hsn := device, 0, 0;
    }

    method SendRawCommand(command: OpalCommand) returns (r: Reply)
      requires Answers(device.dev)
      modifies device
      ensures var c := SetSession(command, device.comId, tsn, hsn);
        var (s, reply) := Exchange(device.AsHost(), old(device.state), c);
        && r == reply
        && device.Now() == World(s, old(device.log) + [Sent(1, c), Answered(reply)])
    {
      var c := SetSession(command, device.comId, tsn, hsn);
      var (s1, sent) := device.dev.send(device.state, Wire(c));
      device.state := s1;
      if !sent {
        r := Failed(Io);
      } else {
        r := Receive(c.eod);
      }
      device.log := device.log + [Sent(1, c), Answered(r)];
    }

    /** Poll for the final packet and take the status out of it. */
    method Receive(eod: bool) returns (r: Reply)
      requires Answers(device.dev)
      modifies device`state
      ensures var (s, received) := Poll(device.dev, old(device.state));
        && device.state == s
        && r == if received.RecvErr? then Failed(Io) else Classify(received.packet, eod)
    {
      var (s, received) := device.dev.recv(device.state);
      device.state := s;
      while !Final(received)
        invariant Poll(device.dev, old(device.state))
          == if Final(received) then (device.state, received) else Poll(device.dev, device.state)
        decreases if Final(received) then 0 else 1, device.dev.patience(device.state)
      {
        var next := device.dev.recv(device.state);
        device.state, received := next.0, next.1;
      }
      if received.RecvErr? {
        return Failed(Io);
      }
      var packet := received.packet;
      if ComPacketLenOf(packet) + 20 > RECV_SIZE {
        return Panicked;
      }
      var parsed := ParseResponse(packet, SubpacketLenOf(packet));
      if parsed.None? {
        return Panicked;
      }
      var tokens := parsed.value;
      if !eod || !HasStatus(tokens) {
        return Failed(NoMethodStatus);
      }
      if tokens[|tokens| - 4] == [] {
        return Panicked;
      }
      var code := GetUint(tokens[|tokens| - 4]);
      if code.NumberPanic? {
        return Panicked;
      }
      return if code.n % 256 != 0 then Failed(Status(code.n % 256)) else Ok(tokens);
    }

    /** `start` after the struct is built. */
    method Start(sp: u64, authority: u64, challenge: Option<Challenge>) returns (r: Reply)
      requires Answers(device.dev)
      modifies this, device
      ensures var call := StartWith(device.isEprise, sp, authority, challenge);
        var (now, reply) := SendTree(device.AsHost(), old(device.Now()), old(Numbers()), call, true);
        && device.Now() == now
        && if reply.Ok? then
             if IdsOf(reply.tokens).None? || (device.isEprise && challenge.Some?) then r == Panicked
             else r == reply && Numbers() == IdsOf(reply.tokens).value
           else r == reply && Numbers() == old(Numbers())
    {
      hide Exchange, Build, Flat, RenderList, UintOf;
      var signed := if device.isEprise || challenge.None? then Nil
                    else Tokens2(Numbered(0x00, Bytes(challenge.value)), Numbered(0x03, BS8(Uid(authority))));
      var timeout := if device.isEprise then Timeout() else Stream(Nil);
      var fixed := Push(Tokens2(Uint(HOST_SESSION), BS8(Uid(sp))), Simple(0x01));
      var c := BuildCall(SMUID, STARTSESSION, Push(Push(fixed, Stream(signed)), timeout));
      r := SendRawCommand(c);
      if !r.Ok? {
        return;
      }
      if |r.tokens| < 6 || r.tokens[4] == [] || r.tokens[5] == [] {
        return Panicked;
      }
      var hostNumber := GetUint(r.tokens[4]);
      var tperNumber := GetUint(r.tokens[5]);
      if hostNumber.NumberPanic? || tperNumber.NumberPanic? {
        return Panicked;
      }
      hsn, tsn := hostNumber.n % TWO_32, tperNumber.n % TWO_32;
      if device.isEprise && challenge.Some? {
        return Panicked;
      }
    }

    method SetLockingSpValue(table: u64, name: byte, value: Token) returns (r: Reply)
      requires Answers(device.dev) && name < 0x40 && Writable(value)
      modifies device
      ensures (device.Now(), r) == SendTree(device.AsHost(), old(device.Now()), Numbers(),
                                            SetCall(table, Tokens1(Numbered(name, value))), true)
    {
      var c := BuildCall(table, SET, Tokens1(Numbered(0x01, List(Tokens1(Numbered(name, value))))));
      r := SendRawCommand(c);
    }

    method SetMbrDone(done: bool) returns (r: Reply)
      requires Answers(device.dev)
      modifies device
      ensures (device.Now(), r) == SendTree(device.AsHost(), old(device.Now()), Numbers(), MbrCall(done), true)
    {
      r := SetLockingSpValue(MBRCONTROL, 0x02, TokenOf(done));
    }

    method SetLockingRange(range: byte, state: LockingState) returns (r: Reply)
      requires Answers(device.dev)
      modifies device
      ensures (device.Now(), r)
        == SendTree(device.AsHost(), old(device.Now()), Numbers(), RangeCall(range, state), true)
    {
      hide Exchange, Build, Flat, RenderList;
      var archiveUser, readLock, writeLock := false, false, false;
      match state {
        case ReadWrite =>
        case ArchiveUnlocked => archiveUser := true;
        case ArchiveLocked => archiveUser := true;
        case ReadOnly => writeLock := true;
        case Locked => readLock, writeLock := true, true;
      }
      var writeLocked := if archiveUser then Stream(Nil) else Numbered(0x08, TokenOf(writeLock));
      var columns := Tokens2(Numbered(0x07, TokenOf(readLock)), writeLocked);
      var c := BuildCall(RangeUid(range), SET, Tokens1(Numbered(0x01, List(columns))));
      r := SendRawCommand(c);
    }

    /** Dropping the session sends an end-of-session; its reply is only logged. */
    method Drop(result: Reply) returns (r: Reply)
      requires Answers(device.dev)
      modifies device
      ensures (device.Now(), r) == EndSession(device.AsHost(), old(device.Now()), Numbers(), result)
    {
      var builder := new OpalCommandBuilder();
      var stream := new Buffer();
      WritableListIsPrintable(EndCall());
      WriteBare(EndCall(), stream);
      assert [] + Flat(RenderList(EndCall())) == Flat(RenderList(EndCall()));
      builder.Payload(stream.bytes);
      var c := builder.BuildEod(false);
      var reply := SendRawCommand(c);
      return if reply.Panicked? then Panicked else result;
    }
  }

  class OpalDrive<S(!new)> {
    const dev: SecureDevice<S>
    const derive: seq<byte> -> Option<Key>

    constructor (dev: SecureDevice<S>, derive: seq<byte> -> Option<Key>)
      ensures this.dev == dev && this.derive == derive
    {
      this.dev, this.derive := dev, derive;
    }

    method Unlock(secret: Secret) returns (r: Reply)
      requires Answers(dev.dev)
      modifies dev
      ensures var (key, error) := KeyOf(derive, secret);
        if key.None? then r == Failed(error) && dev.Now() == old(dev.Now())
        else (dev.Now(), r) == UnlockRun(dev.AsHost(), old(dev.Now()), key.value)
    {
      hide SendTree, EndSession, StartWith, RangeCall, MbrCall, KeyOf;
      var (key, error) := KeyOf(derive, secret);
      if key.None? {
        return Failed(error);
      }
      var session := new OpalSession(dev);
      r := session.Start(LOCKINGSP, ADMIN1, Some(key.value));
      if r.Panicked? {
        return;
      }
      if r.Failed? {
        r := session.Drop(r);
        return;
      }
      r := session.SetLockingRange(0, ReadWrite);
      if r.Panicked? {
        return;
      }
      if r.Failed? {
        r := session.Drop(r);
        return;
      }
      r := session.SetMbrDone(true);
      if r.Panicked? {
        return;
      }
      if r.Failed? {
        r := session.Drop(r);
        return;
      }
      r := session.Drop(Ok([]));
      if r.Panicked? {
        return;
      }
      var (s, ok) := dev.dev.reconnect(dev.state);
      dev.state := s;
      dev.log := dev.log + [Reconnected(ok)];
      return if ok then Ok([]) else Failed(Io);
    }
  }
}
