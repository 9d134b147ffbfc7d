/** A conforming drive that reads the bytes it is sent, holds lock state, and may
    refuse any command; and what the host's unlock does to it
    (opal/src/lib.rs:50-78, status codes of opal/src/defs.rs:308-332; TCG Storage
    Architecture Core Specification, section 3.2). */
module Tper {
  import opened Streams
  import opened Tokens
  import opened Response
  import opened Command
  import opened Session

  const SYNCSESSION := 0xFF03

  /** A method status code; every code of the specification fits a tiny atom. */
  type StatusCode = c: int | 0 <= c < 0x40

  const SUCCESS: StatusCode := 0x00
  const NOT_AUTHORIZED: StatusCode := 0x01
  const NO_SESSIONS_AVAILABLE: StatusCode := 0x07
  const INVALID_PARAMETER: StatusCode := 0x0C

  datatype Locks = Locks(readLocked: bool, writeLocked: bool, mbrDone: bool)

  /** The drive: its PIN, its locks, the open session, a command counter, the locks
      after every command so far, and the answer waiting to be fetched. */
  datatype Drive = Drive(
    pin: Key, locks: Locks, session: Option<Ids>, clock: nat, trail: seq<Locks>, answer: seq<seq<byte>>)

  type AtomWidth = w: int | 1 <= w <= 8 witness 1

  /** How a drive writes a number: in the token itself, or behind a short-atom header. */
  datatype Form = Tiny | Short(width: AtomWidth)

  function Atom(f: Form, v: nat): seq<byte> {
    match f
    case Tiny => [v % 0x40]
    case Short(w) => ShortAtom(v, w)
  }

  predicate FormFits(f: Form, v: nat) {
    v < if f.Tiny? then 0x40 else Pow256(f.width)
  }

  /** What the specification leaves open: which commands the drive refuses (0 for
      none), the session numbers it hands out, and how it writes the host's number and
      its own in answer to each command. */
  datatype Policy = Policy(
    refuse: nat -> StatusCode, number: nat -> u32, hostForm: nat -> Form, ownForm: nat -> Form)

  ghost predicate GoodPolicy(p: Policy) {
    forall n :: FormFits(p.hostForm(n), HOST_SESSION) && FormFits(p.ownForm(n), p.number(n))
  }

  /** The host hears the number the drive wrote. */
  predicate Heard(f: Form, v: nat) {
    f.Tiny? || HeaderHidden(v, f.width)
  }

  /** The host hears both numbers of a session opened by command `n`. */
  predicate IdsHeard(p: Policy, n: nat) {
    Heard(p.hostForm(n), HOST_SESSION) && Heard(p.ownForm(n), p.number(n))
  }

  // ----- reading commands -----

  /** The values of a received packet. */
  function CommandValues(packet: seq<byte>): Option<seq<Value>> {
    if |packet| < HEADER_SIZE then None
    else
      match Parse(packet, HEADER_SIZE, HEADER_SIZE + SubpacketLenOf(packet))
      case None => None
      case Some(tokens) =>
        match ReadForest(tokens)
        case None => None
        case Some(f) => if f.rest == [] then Some(f.values) else None
  }

  const STATUS_OK: seq<Value> := [ControlV(ENDOFDATA), ListV([UintV(0), UintV(0), UintV(0)])]

  function CallValues(uid: seq<byte>, method_: seq<byte>, args: seq<Value>): seq<Value> {
    [ControlV(CALL), BytesV(uid), BytesV(method_), ListV(args)] + STATUS_OK
  }

  datatype Request = Call(uid: seq<byte>, method_: seq<byte>, args: seq<Value>) | EndOfSession | Garbage

  function RequestOf(packet: seq<byte>): Request {
    match CommandValues(packet)
    case None => Garbage
    case Some(vs) =>
      if vs == [ControlV(ENDOFSESSION)] then EndOfSession
      else if |vs| == 6 && vs[1].BytesV? && vs[2].BytesV? && vs[3].ListV?
           && vs == CallValues(vs[1].bytes, vs[2].bytes, vs[3].items)
      then Call(vs[1].bytes, vs[2].bytes, vs[3].items)
      else Garbage
  }

  // ----- the drive -----

  predicate InSession(d: Drive, packet: seq<byte>) {
    && |packet| >= HEADER_SIZE
    && d.session == Some(Ids(TsnOf32(packet), HsnOf32(packet)))
  }

  function TsnOf32(packet: seq<byte>): u32
    requires |packet| >= HEADER_SIZE
  {
    TsnOf(packet) % TWO_32
  }

  function HsnOf32(packet: seq<byte>): u32
    requires |packet| >= HEADER_SIZE
  {
    HsnOf(packet) % TWO_32
  }

  /** The session a StartSession call asks for: its host number and its challenge. */
  function StartArgs(args: seq<Value>): Option<(u32, seq<byte>)> {
    if |args| == 5 && args[0].UintV? && args[0].n < TWO_32
       && args[3].NameV? && |args[3].items| == 2 && args[3].items[1].BytesV?
       && args == [UintV(args[0].n), BytesV(Uid(LOCKINGSP)), UintV(1),
                   NameV([UintV(0), args[3].items[1]]), NameV([UintV(3), BytesV(Uid(ADMIN1))])]
    then Some((args[0].n, args[3].items[1].bytes))
    else None
  }

  /** One column of a Set on the global range or on the MBR control row. */
  function SetColumn(uid: seq<byte>, locks: Locks, column: Value): Option<Locks> {
    if !(column.NameV? && |column.items| == 2 && column.items[0].UintV? && column.items[1].UintV?
         && column.items[1].n < 2)
    then None
    else
      var b := column.items[1].n == 1;
      if uid == Uid(LOCKINGRANGE_GLOBAL) && column.items[0].n == 7 then Some(locks.(readLocked := b))
      else if uid == Uid(LOCKINGRANGE_GLOBAL) && column.items[0].n == 8 then Some(locks.(writeLocked := b))
      else if uid == Uid(MBRCONTROL) && column.items[0].n == 2 then Some(locks.(mbrDone := b))
      else None
  }

  function SetColumns(uid: seq<byte>, locks: Locks, columns: seq<Value>): Option<Locks>
    decreases |columns|
  {
    if columns == [] then Some(locks)
    else
      match SetColumn(uid, locks, columns[0])
      case None => None
      case Some(l) => SetColumns(uid, l, columns[1..])
  }

  function SetArgs(uid: seq<byte>, locks: Locks, args: seq<Value>): Option<Locks> {
    if |args| == 1 && args[0].NameV? && |args[0].items| == 2 && args[0].items[0] == UintV(1) && args[0].items[1].ListV?
    then SetColumns(uid, locks, args[0].items[1].items)
    else None
  }

  /** A response without results. */
  function StatusReply(code: StatusCode): seq<seq<byte>> {
    [[STARTLIST], [ENDLIST], [ENDOFDATA], [STARTLIST], [code], [0], [0], [ENDLIST]]
  }

  /** The answer to StartSession: the call back, with both session numbers. */
  function SyncReply(ids: Ids, host: Form, own: Form): seq<seq<byte>> {
    [[CALL], [0xA8] + Uid(SMUID), [0xA8] + Uid(SYNCSESSION),
     [STARTLIST], Atom(host, ids.hsn), Atom(own, ids.tsn), [ENDLIST],
     [ENDOFDATA], [STARTLIST], [0], [0], [0], [ENDLIST]]
  }

  /** The drive's state after a command, and its answer. */
  function Perform(p: Policy, d: Drive, packet: seq<byte>): (Drive, seq<seq<byte>>)
  {
    match RequestOf(packet)
    case Garbage => (d, [])
    case EndOfSession => if InSession(d, packet) then (d.(session := None), [[ENDOFSESSION]]) else (d, [])
    case Call(uid, method_, args) =>
      if p.refuse(d.clock) != SUCCESS then (d, StatusReply(p.refuse(d.clock)))
      else if uid == Uid(SMUID) && method_ == Uid(STARTSESSION) then
        (match StartArgs(args)
         case None => (d, StatusReply(INVALID_PARAMETER))
         case Some((hsn, challenge)) =>
           if d.session.Some? then (d, StatusReply(NO_SESSIONS_AVAILABLE))
           else if challenge != d.pin then (d, StatusReply(NOT_AUTHORIZED))
           else
             var ids := Ids(p.number(d.clock), hsn);
             (d.(session := Some(ids)), SyncReply(ids, p.hostForm(d.clock), p.ownForm(d.clock))))
      else if !InSession(d, packet) then (d, [])
      else if method_ == Uid(SET) then
        (match SetArgs(uid, d.locks, args)
         case None => (d, StatusReply(INVALID_PARAMETER))
         case Some(locks) => (d.(locks := locks), StatusReply(SUCCESS)))
      else (d, StatusReply(INVALID_PARAMETER))
  }

  function ReplyCommand(body: seq<byte>): OpalCommand
    requires HEADER_SIZE + |body| <= RECV_SIZE
  {
    var len := |body|;
    OpalCommand(len + SUBPACKET_HEADER + PACKET_HEADER, len + SUBPACKET_HEADER, len, 0, 0, 0, body, false)
  }

  /** The packet that carries an answer, in the host's receive buffer. */
  function ReplyPacket(tokens: seq<seq<byte>>): Packet {
    var body := Flat(tokens);
    if HEADER_SIZE + |body| > RECV_SIZE then Zeros(RECV_SIZE)
    else
      var len := |body|;
      Wire(ReplyCommand(body)) + Zeros(RECV_SIZE - HEADER_SIZE - len)
  }

  function Receive(p: Policy, d: Drive, packet: seq<byte>): Drive
  {
    var (d', tokens) := Perform(p, d, packet);
    d'.(clock := d.clock + 1, trail := d.trail + [d'.locks], answer := tokens)
  }

  /** The drive as a device: every send arrives, and the answer is there at the first poll. */
  function AsDevice(p: Policy): Device<Drive>
  {
    Device(
      (d: Drive, packet: seq<byte>) => (Receive(p, d, packet), true),
      (d: Drive) => (d, Received(ReplyPacket(d.answer))),
      (d: Drive) => (d, true),
      (d: Drive) => 0)
  }

  // ----- what the host hears -----

  lemma PaddedFields(w: seq<byte>, pad: seq<byte>)
    requires |w| >= HEADER_SIZE
    ensures OutstandingOf(w + pad) == OutstandingOf(w)
    ensures ComPacketLenOf(w + pad) == ComPacketLenOf(w)
    ensures SubpacketLenOf(w + pad) == SubpacketLenOf(w)
  {
    assert (w + pad)[8..12] == w[8..12];
    assert (w + pad)[16..20] == w[16..20];
    assert (w + pad)[52..56] == w[52..56];
  }

  /** The host reads exactly the tokens the drive answered with. */
  lemma ReplyHeard(tokens: seq<seq<byte>>)
    requires Clean(tokens) && |Flat(tokens)| <= 1000
    ensures Final(Received(ReplyPacket(tokens)))
    ensures ComPacketLenOf(ReplyPacket(tokens)) + 20 <= RECV_SIZE
    ensures Parse(ReplyPacket(tokens), HEADER_SIZE, HEADER_SIZE + SubpacketLenOf(ReplyPacket(tokens))) == Some(tokens)
  {
    hide Wire, Flat, Clean, Parse, OutstandingOf, ComPacketLenOf, SubpacketLenOf, ComIdOf, TsnOf, HsnOf, PacketLenOf;
    var len := |Flat(tokens)|;
    var c := ReplyCommand(Flat(tokens));
    var w, pad := Wire(c), Zeros(RECV_SIZE - HEADER_SIZE - len);
    WireFields(c);
    WireNotOutstanding(c);
    PaddedFields(w, pad);
    assert (w + pad)[HEADER_SIZE..] == w[HEADER_SIZE..] + pad;
    ParseClean(w + pad, tokens);
  }

  lemma WireNotOutstanding(c: OpalCommand)
    ensures OutstandingOf(Wire(c)) == 0
  {
    assert Wire(c)[8..12] == Zeros(4);
    assert Zeros(4)[..3] == Zeros(3) && Zeros(3)[..2] == Zeros(2) && Zeros(2)[..1] == Zeros(1) && Zeros(1)[..0] == [];
  }

  lemma ReplyFinal(tokens: seq<seq<byte>>)
    ensures Final(Received(ReplyPacket(tokens)))
  {
    var len := |Flat(tokens)|;
    if HEADER_SIZE + len <= RECV_SIZE {
      var c := ReplyCommand(Flat(tokens));
      WireNotOutstanding(c);
      PaddedFields(Wire(c), Zeros(RECV_SIZE - HEADER_SIZE - len));
    } else {
      assert Zeros(RECV_SIZE)[8..12] == Zeros(4);
      assert Zeros(4)[..3] == Zeros(3) && Zeros(3)[..2] == Zeros(2) && Zeros(2)[..1] == Zeros(1) && Zeros(1)[..0] == [];
    }
  }

  lemma DriveAnswers(p: Policy)
    ensures Answers(AsDevice(p))
  {
    forall d: Drive ensures Final(AsDevice(p).recv(d).1) {
      ReplyFinal(d.answer);
    }
  }

  lemma AtomsClean(ts: seq<seq<byte>>)
    requires forall t | t in ts :: (|t| == 1 && (t[0] < 0x80 || 0xF0 <= t[0] < EMPTYATOM))
                                || (|t| == 9 && t[0] == 0xA8)
                                || (1 < |t| <= 9 && t[0] == 0x80 + |t| - 1)
    ensures Clean(ts)
  {
  }

  lemma {:induction false} FlatBound(ts: seq<seq<byte>>)
    requires forall t | t in ts :: |t| <= 9
    ensures |Flat(ts)| <= 9 * |ts|
  {
    if ts != [] { FlatBound(ts[1..]); }
  }

  predicate Audible(ts: seq<seq<byte>>) {
    Clean(ts) && |Flat(ts)| <= 1000
  }

  lemma StatusAudible(code: StatusCode)
    ensures Audible(StatusReply(code)) && Audible([]) && Audible([[ENDOFSESSION]])
  {
    AtomsClean(StatusReply(code));
    AtomsClean([[ENDOFSESSION]]);
    hide Clean;
    FlatBound(StatusReply(code));
    FlatBound([[ENDOFSESSION]]);
  }

  lemma SyncAudible(ids: Ids, host: Form, own: Form)
    ensures Audible(SyncReply(ids, host, own))
  {
    var ts := SyncReply(ids, host, own);
    AtomShape(host, ids.hsn);
    AtomShape(own, ids.tsn);
    hide Atom;
    AtomsClean(ts);
    hide Clean;
    FlatBound(ts);
  }

  lemma AtomShape(f: Form, v: nat)
    ensures var t := Atom(f, v); (|t| == 1 && t[0] < 0x40) || (1 < |t| <= 9 && t[0] == 0x80 + |t| - 1)
  {
  }

  /** Every answer of the drive can be heard. */
  lemma PerformAudible(p: Policy, d: Drive, packet: seq<byte>)
    ensures Audible(Perform(p, d, packet).1)
  {
    hide RequestOf, InSession, StartArgs, SetArgs, StatusReply, SyncReply, Audible;
    forall code: StatusCode ensures Audible(StatusReply(code)) {
      StatusAudible(code);
    }
    forall ids, host, own ensures Audible(SyncReply(ids, host, own)) {
      SyncAudible(ids, host, own);
    }
    StatusAudible(SUCCESS);
  }

  /** One exchange with the drive: its state, and the verdict on its answer. */
  lemma DriveExchange(p: Policy, h: Host<Drive>, d: Drive, c: OpalCommand)
    requires h.dev == AsDevice(p) && Answers(h.dev)
    ensures Exchange(h, d, c) == (Receive(p, d, Wire(c)), Verdict(Perform(p, d, Wire(c)).1, c.eod))
  {
    var d' := Receive(p, d, Wire(c));
    PerformAudible(p, d, Wire(c));
    ReplyHeard(d'.answer);
    hide Perform, ReplyPacket, Verdict, Wire, Parse, Clean, Flat;
  }

  // ----- what the drive hears -----

  /** An upper bound for the printed size of a tree. */
  function Weight(t: Token): nat {
    match t
    case Simple(_) => 1
    case BS8(uid) => 1 + |uid|
    case Uint(_) => 9
    case Bytes(bytes) => 2 + |bytes|
    case Name(k, v) => 2 + Weight(k) + Weight(v)
    case List(items) => 2 + WeightAll(items)
    case Stream(items) => WeightAll(items)
  }

  function WeightAll(ts: TokenList): nat {
    match ts
    case Nil => 0
    case Cons(last, rest) => WeightAll(rest) + Weight(last)
  }

  lemma {:induction false} PrintWeight(t: Token)
    requires Writable(t)
    ensures |Flat(Render(t))| <= Weight(t)
    decreases t, 1
  {
    match t {
      case Name(k, v) =>
        PrintWeight(k);
        PrintWeight(v);
        FlatBracketed(STARTNAME, Render(k), Render(v), ENDNAME);
      case List(items) =>
        PrintWeightAll(items);
        assert [[STARTLIST]] + RenderList(items) + [] == [[STARTLIST]] + RenderList(items);
        FlatOne([]);
        FlatBracketed(STARTLIST, RenderList(items), [], ENDLIST);
      case Stream(items) =>
        PrintWeightAll(items);
      case _ =>
        FlatOne(Render(t)[0]);
        assert Render(t) == [Render(t)[0]];
    }
  }

  lemma {:induction false} PrintWeightAll(ts: TokenList)
    requires WritableList(ts)
    ensures |Flat(RenderList(ts))| <= WeightAll(ts)
    decreases ts, 0
  {
    match ts {
      case Nil =>
      case Cons(last, rest) =>
        PrintWeightAll(rest);
        PrintWeight(last);
        FlatConcat(RenderList(rest), Render(last));
    }
  }

  lemma EodMeaning()
    ensures MeaningList(EOD_TOKENS) == STATUS_OK
  {
    var z1 := Cons(Simple(0), Nil);
    var z2 := Cons(Simple(0), z1);
    var z3 := Cons(Simple(0), z2);
    assert MeaningList(z1) == [UintV(0)];
    assert MeaningList(z2) == [UintV(0), UintV(0)];
    assert MeaningList(z3) == [UintV(0), UintV(0), UintV(0)];
    assert MeaningList(Cons(Simple(ENDOFDATA), Nil)) == [ControlV(ENDOFDATA)];
    assert Meaning(List(z3)) == [ListV([UintV(0), UintV(0), UintV(0)])];
  }

  /** The drive reads exactly what the host meant, in the session the host named. */
  lemma CommandHeard(h: Host<Drive>, ids: Ids, tree: Tree, eod: bool)
    requires h.comId < 0x1_0000 && WeightAll(tree) < 0x1_0000
    ensures var packet := Wire(CommandOf(h, ids, tree, eod));
      && CommandValues(packet) == Some(MeaningList(tree) + if eod then STATUS_OK else [])
      && TsnOf32(packet) == ids.tsn && HsnOf32(packet) == ids.hsn
  {
    hide Wire, Build, Flat, RenderList, MeaningList, Parse, TsnOf, HsnOf;
    hide SubpacketLenOf, Carried, ReadForest, WeightAll;
    PrintWeightAll(tree);
    FrameRoundTrip(tree, eod, h.comId, ids.tsn, ids.hsn);
    CarriedMeaning(tree, eod);
  }

  lemma CarriedMeaning(tree: Tree, eod: bool)
    ensures ReadForest(Carried(tree, eod)) == Some(Forest(MeaningList(tree) + (if eod then STATUS_OK else []), []))
  {
    hide RenderList, MeaningList;
    var tail := if eod then RenderList(EOD_TOKENS) else [];
    ReadRenderList(tree, tail);
    if eod {
      MeaningRecovered(EOD_TOKENS);
      EodMeaning();
    }
  }

  function StartValues(key: Key): seq<Value> {
    [UintV(HOST_SESSION), BytesV(Uid(LOCKINGSP)), UintV(1),
     NameV([UintV(0), BytesV(key)]), NameV([UintV(3), BytesV(Uid(ADMIN1))])]
  }

  lemma CallMeaning(uid: u64, method_: u64, args: Tree)
    ensures MeaningList(CallOn(uid, method_, args)) + STATUS_OK
      == CallValues(Uid(uid), Uid(method_), MeaningList(args))
    ensures WeightAll(CallOn(uid, method_, args)) == WeightAll(args) + 21
  {
    var c1 := Cons(Simple(CALL), Nil);
    var c2 := Cons(BS8(Uid(uid)), c1);
    assert Weight(BS8(Uid(uid))) == 9 && Weight(BS8(Uid(method_))) == 9 && Weight(Simple(CALL)) == 1;
    assert MeaningList(c1) == [ControlV(CALL)];
    assert WeightAll(c1) == 1;
    assert WeightAll(c2) == WeightAll(c1) + Weight(BS8(Uid(uid)));
    assert MeaningList(c2) == [ControlV(CALL), BytesV(Uid(uid))] && WeightAll(c2) == 10;
    var c3 := CallTokens(Uid(uid), Uid(method_));
    assert MeaningList(c3) == [ControlV(CALL), BytesV(Uid(uid)), BytesV(Uid(method_))] && WeightAll(c3) == 19;
    assert Meaning(List(args)) == [ListV(MeaningList(args))];
  }

  lemma TwoMeaning(a: Token, b: Token)
    requires Writable(a) && Writable(b)
    ensures MeaningList(Tokens1(a)) == Meaning(a) && WeightAll(Tokens1(a)) == Weight(a)
    ensures MeaningList(Tokens2(a, b)) == Meaning(a) + Meaning(b) && WeightAll(Tokens2(a, b)) == Weight(a) + Weight(b)
  {
    assert [] + Meaning(a) == Meaning(a);
  }

  function FixedArgs(): Tree {
    Push(Tokens2(Uint(HOST_SESSION), BS8(Uid(LOCKINGSP))), Simple(0x01))
  }

  lemma FixedMeaning()
    ensures MeaningList(FixedArgs()) == [UintV(HOST_SESSION), BytesV(Uid(LOCKINGSP)), UintV(1)]
    ensures WeightAll(FixedArgs()) == 19
  {
    TwoMeaning(Uint(HOST_SESSION), BS8(Uid(LOCKINGSP)));
  }

  lemma NumberedMeaning(n: byte, value: Token, v: Value)
    requires n < 0x40 && Writable(value) && Meaning(value) == [v]
    ensures Meaning(Numbered(n, value)) == [NameV([UintV(n), v])]
    ensures Weight(Numbered(n, value)) == 3 + Weight(value)
  {
    assert [UintV(n)] + [v] == [UintV(n), v];
  }

  lemma StartMeaning(key: Key)
    ensures MeaningList(StartCall(false, key)) + STATUS_OK
      == CallValues(Uid(SMUID), Uid(STARTSESSION), StartValues(key))
    ensures WeightAll(StartCall(false, key)) < 0x1_0000
  {
    var k0, k3 := Numbered(0x00, Bytes(key)), Numbered(0x03, BS8(Uid(ADMIN1)));
    assert Weight(Bytes(key)) == 34 && Weight(BS8(Uid(ADMIN1))) == 9;
    NumberedMeaning(0x00, Bytes(key), BytesV(key));
    NumberedMeaning(0x03, BS8(Uid(ADMIN1)), BytesV(Uid(ADMIN1)));
    TwoMeaning(k0, k3);
    FixedMeaning();
    hide Numbered, TokenOf, Uid;
    var pair := Tokens2(k0, k3);
    var fixed := FixedArgs();
    var args := Push(Push(fixed, Stream(pair)), Stream(Nil));
    assert MeaningList(Push(fixed, Stream(pair))) == MeaningList(fixed) + MeaningList(pair);
    assert Meaning(Stream(Nil)) == [] && Weight(Stream(Nil)) == 0;
    assert MeaningList(args) == StartValues(key);
    assert WeightAll(Push(fixed, Stream(pair))) == WeightAll(fixed) + WeightAll(pair);
    assert WeightAll(args) == WeightAll(fixed) + WeightAll(pair);
    CallMeaning(SMUID, STARTSESSION, args);
  }

  lemma SetMeaning(uid: u64, columns: Tree)
    ensures MeaningList(SetCall(uid, columns)) + STATUS_OK
      == CallValues(Uid(uid), Uid(SET), [NameV([UintV(1), ListV(MeaningList(columns))])])
    ensures WeightAll(SetCall(uid, columns)) == WeightAll(columns) + 26
  {
    var name := Numbered(0x01, List(columns));
    NumberedMeaning(0x01, List(columns), ListV(MeaningList(columns)));
    TwoMeaning(name, name);
    CallMeaning(uid, SET, Tokens1(name));
  }

  function ColumnV(column: nat, b: bool): Value {
    NameV([UintV(column), UintV(if b then 1 else 0)])
  }

  /** The columns a locking state asks for. */
  function RangeColumns(state: LockingState): seq<Value> {
    [ColumnV(7, state == Locked)]
    + if state == ArchiveLocked || state == ArchiveUnlocked then []
      else [ColumnV(8, state == Locked || state == ReadOnly)]
  }

  /** Every locking state names ReadLocked, all but the archive states WriteLocked too;
      different ranges are different rows, the global one included. */
  lemma RangeMeaning(range: byte, other: byte, state: LockingState)
    ensures MeaningList(RangeCall(range, state)) + STATUS_OK
      == CallValues(Uid(RangeUid(range)), Uid(SET), [NameV([UintV(1), ListV(RangeColumns(state))])])
    ensures Uid(RangeUid(range)) == Uid(RangeUid(other)) <==> range == other
  {
    UidInjective(RangeUid(range), RangeUid(other));
    var archive := state == ArchiveLocked || state == ArchiveUnlocked;
    var read := Numbered(0x07, TokenOf(state == Locked));
    var write := if archive then Stream(Nil) else Numbered(0x08, TokenOf(state == Locked || state == ReadOnly));
    assert RangeCall(range, state) == SetCall(RangeUid(range), Tokens2(read, write));
    TwoColumns(state, read, write);
    hide Numbered, MeaningList, Uid, CallValues, RangeColumns, SetCall, RangeCall;
    SetMeaning(RangeUid(range), Tokens2(read, write));
  }

  lemma TwoColumns(state: LockingState, read: Token, write: Token)
    requires read == Numbered(0x07, TokenOf(state == Locked))
    requires write == if state == ArchiveLocked || state == ArchiveUnlocked then Stream(Nil)
                      else Numbered(0x08, TokenOf(state == Locked || state == ReadOnly))
    ensures MeaningList(Tokens2(read, write)) == RangeColumns(state)
  {
    var b := state == Locked || state == ReadOnly;
    NumberedMeaning(0x07, TokenOf(state == Locked), UintV(if state == Locked then 1 else 0));
    NumberedMeaning(0x08, TokenOf(b), UintV(if b then 1 else 0));
    TwoMeaning(read, write);
    hide Numbered;
  }

  lemma EndMeaning()
    ensures MeaningList(EndCall()) + [] == [ControlV(ENDOFSESSION)]
    ensures WeightAll(EndCall()) < 0x1_0000
  {
    TwoMeaning(Simple(ENDOFSESSION), Simple(ENDOFSESSION));
  }

  // ----- the steps of an unlock -----

  lemma UidInjective(a: u64, b: u64)
    ensures Uid(a) == Uid(b) ==> a == b
  {
    PowValues();
    BigEndianRoundTrip(a, 8);
    BigEndianRoundTrip(b, 8);
  }

  lemma RequestOfCall(packet: seq<byte>, uid: seq<byte>, method_: seq<byte>, args: seq<Value>)
    requires CommandValues(packet) == Some(CallValues(uid, method_, args))
    ensures RequestOf(packet) == Call(uid, method_, args)
  {
    hide CommandValues;
    var vs := CallValues(uid, method_, args);
    assert vs[1] == BytesV(uid) && vs[2] == BytesV(method_) && vs[3] == ListV(args);
  }

  lemma StatusVerdict(code: StatusCode)
    ensures Verdict(StatusReply(code), true)
      == if code == SUCCESS then Ok(StatusReply(SUCCESS)) else Failed(Status(code))
  {
    assert StatusReply(code)[4] == [code];
  }

  /** The host gets a number right exactly when it hears it. */
  lemma FormHeard(f: Form, v: u32)
    requires FormFits(f, v)
    ensures Atom(f, v) != [] && UintOf(Atom(f, v)).Number?
    ensures UintOf(Atom(f, v)).n % TWO_32 == v <==> Heard(f, v)
  {
    if f.Short? { TruncationExact(v, f.width); }
  }

  lemma SyncVerdict(ids: Ids, host: Form, own: Form)
    requires FormFits(host, ids.hsn) && FormFits(own, ids.tsn)
    ensures Verdict(SyncReply(ids, host, own), true) == Ok(SyncReply(ids, host, own))
    ensures IdsOf(SyncReply(ids, host, own)).Some?
    ensures IdsOf(SyncReply(ids, host, own)) == Some(ids) <==> Heard(host, ids.hsn) && Heard(own, ids.tsn)
  {
    var ts := SyncReply(ids, host, own);
    assert |ts| == 13 && ts[4] == Atom(host, ids.hsn) && ts[5] == Atom(own, ids.tsn) && ts[9] == [0];
    FormHeard(host, ids.hsn);
    FormHeard(own, ids.tsn);
    hide Atom, UintOf, Heard, FormFits;
  }

  ghost predicate Setting(p: Policy, h: Host<Drive>) {
    && GoodPolicy(p)
    && h.dev == AsDevice(p) && Answers(h.dev)
    && !h.isEprise && h.comId < 0x1_0000
  }

  /** What one command does, seen from both sides. */
  lemma DriveSend(p: Policy, h: Host<Drive>, w: World<Drive>, ids: Ids, tree: Tree, eod: bool)
    requires Setting(p, h) && WeightAll(tree) < 0x1_0000
    ensures var packet := Wire(CommandOf(h, ids, tree, eod));
      && SendTree(h, w, ids, tree, eod).0.state == Receive(p, w.state, packet)
      && SendTree(h, w, ids, tree, eod).1 == Verdict(Perform(p, w.state, packet).1, eod)
      && CommandValues(packet) == Some(MeaningList(tree) + if eod then STATUS_OK else [])
      && InSession(w.state, packet) == (w.state.session == Some(ids))
  {
    hide Build, Wire, Receive, Perform, Verdict, CommandValues, WeightAll;
    hide MeaningList, RenderList, Flat, TsnOf32, HsnOf32;
    DriveExchange(p, h, w.state, CommandOf(h, ids, tree, eod));
    CommandHeard(h, ids, tree, eod);
  }

  /** The bookkeeping every command does. */
  predicate Ticked(d: Drive, d': Drive) {
    && d'.pin == d.pin
    && d'.clock == d.clock + 1
    && d'.trail == d.trail + [d'.locks]
  }

  lemma PerformStart(p: Policy, d: Drive, packet: seq<byte>, key: Key)
    requires RequestOf(packet) == Call(Uid(SMUID), Uid(STARTSESSION), StartValues(key))
    ensures Perform(p, d, packet) ==
      if p.refuse(d.clock) != SUCCESS then (d, StatusReply(p.refuse(d.clock)))
      else if d.session.Some? then (d, StatusReply(NO_SESSIONS_AVAILABLE))
      else if key != d.pin then (d, StatusReply(NOT_AUTHORIZED))
      else
        var ids := Ids(p.number(d.clock), HOST_SESSION);
        (d.(session := Some(ids)), SyncReply(ids, p.hostForm(d.clock), p.ownForm(d.clock)))
  {
    hide RequestOf, Uid, SyncReply, StatusReply;
    assert StartArgs(StartValues(key)) == Some((HOST_SESSION, key));
  }

  /** What the drive says to StartSession: refused, busy, the wrong key, or success. */
  function StartCode(p: Policy, d: Drive, key: Key): StatusCode {
    if p.refuse(d.clock) != SUCCESS then p.refuse(d.clock)
    else if d.session.Some? then NO_SESSIONS_AVAILABLE
    else if key != d.pin then NOT_AUTHORIZED
    else SUCCESS
  }

  lemma StartCodeIs(p: Policy, d: Drive, key: Key)
    ensures StartCode(p, d, key)
      == if p.refuse(d.clock) != 0 then p.refuse(d.clock)
         else if d.session.Some? then 0x07
         else if key != d.pin then 0x01
         else 0x00
  {
  }

  /** A start opens a session and tells the host its numbers, or fails with the code for
      its reason and opens none. */
  lemma StartStep(p: Policy, h: Host<Drive>, w: World<Drive>, key: Key)
    requires Setting(p, h)
    ensures var (w', r) := SendTree(h, w, Ids(0, 0), StartCall(false, key), true);
      var (d, d') := (w.state, w'.state);
      && Ticked(d, d') && d'.locks == d.locks
      && (if StartCode(p, d, key) == SUCCESS then
            var ids := Ids(p.number(d.clock), HOST_SESSION);
            && d'.session == Some(ids)
            && r.Ok? && IdsOf(r.tokens).Some? && (IdsOf(r.tokens) == Some(ids) <==> IdsHeard(p, d.clock))
          else
            && d'.session == d.session
            && r == Failed(Status(if p.refuse(d.clock) != 0 then p.refuse(d.clock)
                                  else if d.session.Some? then 0x07 else 0x01)))
  {
    StartCodeIs(p, w.state, key);
    StartMeaning(key);
    DriveSend(p, h, w, Ids(0, 0), StartCall(false, key), true);
    var packet := Wire(CommandOf(h, Ids(0, 0), StartCall(false, key), true));
    RequestOfCall(packet, Uid(SMUID), Uid(STARTSESSION), StartValues(key));
    PerformStart(p, w.state, packet, key);
    hide SendTree, RequestOf, Wire, Uid, StartCall, Verdict, SyncReply, StatusReply, CommandOf, MeaningList, Perform,
         CommandValues, InSession, IdsOf;
    StatusVerdict(p.refuse(w.state.clock));
    StatusVerdict(NO_SESSIONS_AVAILABLE);
    StatusVerdict(NOT_AUTHORIZED);
    var n := w.state.clock;
    SyncVerdict(Ids(p.number(n), HOST_SESSION), p.hostForm(n), p.ownForm(n));
  }

  lemma PerformSet(p: Policy, d: Drive, packet: seq<byte>, uid: u64, columns: seq<Value>)
    requires RequestOf(packet) == Call(Uid(uid), Uid(SET), [NameV([UintV(1), ListV(columns)])])
    ensures Perform(p, d, packet) ==
      if p.refuse(d.clock) != SUCCESS then (d, StatusReply(p.refuse(d.clock)))
      else if !InSession(d, packet) then (d, [])
      else
        match SetColumns(Uid(uid), d.locks, columns)
        case None => (d, StatusReply(INVALID_PARAMETER))
        case Some(locks) => (d.(locks := locks), StatusReply(SUCCESS))
  {
    UidInjective(SET, STARTSESSION);
    hide RequestOf, Uid, StatusReply, InSession, SetColumns;
  }

  /** Why a Set comes to nothing: refused, or not in the open session, which the drive
      does not answer. */
  function SetFails(p: Policy, d: Drive, ids: Ids): Option<Error> {
    if p.refuse(d.clock) != SUCCESS then Some(Status(p.refuse(d.clock)))
    else if d.session != Some(ids) then Some(NoMethodStatus)
    else None
  }

  /** A Set succeeds exactly when it is not refused and comes in the open session. */
  lemma SetStep(p: Policy, h: Host<Drive>, w: World<Drive>, ids: Ids, uid: u64, columns: Tree, locks: Locks)
    requires Setting(p, h) && WeightAll(columns) < 0x1000
    requires SetColumns(Uid(uid), w.state.locks, MeaningList(columns)) == Some(locks)
    ensures var (w', r) := SendTree(h, w, ids, SetCall(uid, columns), true);
      var (d, d') := (w.state, w'.state);
      && Ticked(d, d') && d'.session == d.session
      && (if SetFails(p, d, ids).None? then r.Ok? && d'.locks == locks
          else r == Failed(SetFails(p, d, ids).value) && d'.locks == d.locks)
  {
    SetMeaning(uid, columns);
    DriveSend(p, h, w, ids, SetCall(uid, columns), true);
    var packet := Wire(CommandOf(h, ids, SetCall(uid, columns), true));
    var args := [NameV([UintV(1), ListV(MeaningList(columns))])];
    RequestOfCall(packet, Uid(uid), Uid(SET), args);
    PerformSet(p, w.state, packet, uid, MeaningList(columns));
    hide SendTree, RequestOf, Wire, Uid, SetCall, Verdict, StatusReply, CommandOf, MeaningList, InSession, Perform,
         CommandValues, SetColumns;
    StatusVerdict(p.refuse(w.state.clock));
    StatusVerdict(SUCCESS);
    NoStatus();
  }

  lemma NoStatus()
    ensures Verdict([], true) == Failed(NoMethodStatus)
    ensures forall ts :: Verdict(ts, false) == Failed(NoMethodStatus)
  {
  }

  lemma RangeStep(p: Policy, h: Host<Drive>, w: World<Drive>, ids: Ids)
    requires Setting(p, h)
    ensures var (w', r) := SendTree(h, w, ids, RangeCall(0, ReadWrite), true);
      var (d, d') := (w.state, w'.state);
      && Ticked(d, d') && d'.session == d.session
      && (if SetFails(p, d, ids).None? then r.Ok? && d'.locks == Locks(false, false, d.locks.mbrDone)
          else r == Failed(SetFails(p, d, ids).value) && d'.locks == d.locks)
  {
    var read, write := Numbered(0x07, TokenOf(false)), Numbered(0x08, TokenOf(false));
    ColumnMeaning(read, write);
    var locks := w.state.locks;
    RangeColumnsSet(locks);
    hide SendTree, SetColumns, Uid, MeaningList, WeightAll, SetFails, Numbered;
    SetStep(p, h, w, ids, LOCKINGRANGE_GLOBAL, Tokens2(read, write), Locks(false, false, locks.mbrDone));
  }

  lemma RangeColumnsSet(locks: Locks)
    ensures SetColumns(Uid(LOCKINGRANGE_GLOBAL), locks, [NameV([UintV(7), UintV(0)]), NameV([UintV(8), UintV(0)])])
      == Some(Locks(false, false, locks.mbrDone))
  {
    var uid := Uid(LOCKINGRANGE_GLOBAL);
    var columns := [NameV([UintV(7), UintV(0)]), NameV([UintV(8), UintV(0)])];
    assert columns[1..] == [NameV([UintV(8), UintV(0)])] && columns[1..][1..] == [];
    assert SetColumns(uid, locks.(readLocked := false), columns[1..]) == Some(Locks(false, false, locks.mbrDone));
  }

  lemma ColumnMeaning(read: Token, write: Token)
    requires read == Numbered(0x07, TokenOf(false)) && write == Numbered(0x08, TokenOf(false))
    ensures MeaningList(Tokens2(read, write)) == [NameV([UintV(7), UintV(0)]), NameV([UintV(8), UintV(0)])]
    ensures WeightAll(Tokens2(read, write)) < 0x1000
  {
    NumberedMeaning(0x07, TokenOf(false), UintV(0));
    NumberedMeaning(0x08, TokenOf(false), UintV(0));
    TwoMeaning(read, write);
    hide Numbered;
    assert [NameV([UintV(7), UintV(0)])] + [NameV([UintV(8), UintV(0)])]
        == [NameV([UintV(7), UintV(0)]), NameV([UintV(8), UintV(0)])];
  }

  lemma MbrStep(p: Policy, h: Host<Drive>, w: World<Drive>, ids: Ids)
    requires Setting(p, h)
    ensures var (w', r) := SendTree(h, w, ids, MbrCall(true), true);
      var (d, d') := (w.state, w'.state);
      && Ticked(d, d') && d'.session == d.session
      && (if SetFails(p, d, ids).None? then r.Ok? && d'.locks == d.locks.(mbrDone := true)
          else r == Failed(SetFails(p, d, ids).value) && d'.locks == d.locks)
  {
    var done := Numbered(0x02, TokenOf(true));
    NumberedMeaning(0x02, TokenOf(true), UintV(1));
    TwoMeaning(done, done);
    var locks := w.state.locks;
    MbrColumnsSet(locks);
    hide SendTree, SetColumns, Uid, MeaningList, WeightAll, SetFails, Numbered;
    SetStep(p, h, w, ids, MBRCONTROL, Tokens1(done), locks.(mbrDone := true));
  }

  lemma MbrColumnsSet(locks: Locks)
    ensures SetColumns(Uid(MBRCONTROL), locks, [NameV([UintV(2), UintV(1)])]) == Some(locks.(mbrDone := true))
  {
    UidInjective(MBRCONTROL, LOCKINGRANGE_GLOBAL);
    var columns := [NameV([UintV(2), UintV(1)])];
    assert columns[1..] == [];
  }

  lemma EndStep(p: Policy, h: Host<Drive>, w: World<Drive>, ids: Ids, result: Reply)
    requires Setting(p, h)
    ensures var (w', r) := EndSession(h, w, ids, result);
      var (d, d') := (w.state, w'.state);
      && Ticked(d, d') && d'.locks == d.locks && r == result
      && d'.session == if d.session == Some(ids) then None else d.session
  {
    EndMeaning();
    DriveSend(p, h, w, ids, EndCall(), false);
    NoStatus();
    hide SendTree, Wire, EndCall, Verdict, CommandOf, MeaningList, InSession, CommandValues;
  }

  // ----- the unlock -----

  /** MBRDone was not set by this run while range 0 was locked. */
  predicate MbrSafe(before: Locks, now: Locks) {
    now.mbrDone && !before.mbrDone ==> !now.readLocked && !now.writeLocked
  }

  /** None of the three commands is refused and no session is in the way. */
  predicate Willing(p: Policy, d: Drive) {
    && d.session.None?
    && p.refuse(d.clock) == p.refuse(d.clock + 1) == p.refuse(d.clock + 2) == SUCCESS
  }

  /** The session left behind by an unlock. */
  function SessionLeft(p: Policy, d: Drive, key: Key): Option<Ids> {
    if StartCode(p, d, key) == SUCCESS then
      if IdsHeard(p, d.clock) then None else Some(Ids(p.number(d.clock), HOST_SESSION))
    else if d.session == Some(Ids(0, 0)) then None
    else d.session
  }

  /** The host's unlock against a conforming drive: it never panics; it succeeds exactly
      when the key is the PIN, no session was open, the drive writes its session numbers
      so that the host hears them and refuses none of the three commands; then range 0 is
      unlocked and the MBR is done. A willing drive answers NOT_AUTHORIZED exactly to a
      wrong key. A session is left open exactly when the one just opened was misheard, or
      when one was open before. Whatever happens, MBRDone is never set while range 0 is
      locked, and a wrong key changes no lock. */
  lemma UnlockExact(p: Policy, h: Host<Drive>, w: World<Drive>, key: Key)
    requires Setting(p, h)
    ensures var (w', r) := UnlockRun(h, w, key);
      var (d, d') := (w.state, w'.state);
      && !r.Panicked?
      && (r.Ok? <==> key == d.pin && Willing(p, d) && IdsHeard(p, d.clock))
      && (r.Ok? ==> d'.locks == Locks(false, false, true))
      && (Willing(p, d) ==> (r == Failed(Status(0x01)) <==> key != d.pin))
      && (key != d.pin ==> r == Failed(Status(StartCode(p, d, key))) && d'.locks == d.locks)
      && d'.session == SessionLeft(p, d, key)
      && d'.pin == d.pin
      && d.trail <= d'.trail
      && forall i | |d.trail| <= i < |d'.trail| :: MbrSafe(d.locks, d'.trail[i])
  {
    hide SendTree, EndSession, StartCall, RangeCall, MbrCall, IdsOf, Heard;
    var noIds := Ids(0, 0);
    StartStep(p, h, w, key);
    var (w1, r1) := SendTree(h, w, noIds, StartCall(false, key), true);
    if r1.Failed? {
      EndStep(p, h, w1, noIds, r1);
      return;
    }
    var ids := IdsOf(r1.tokens).value;
    RangeStep(p, h, w1, ids);
    var (w2, r2) := SendTree(h, w1, ids, RangeCall(0, ReadWrite), true);
    if r2.Failed? {
      EndStep(p, h, w2, ids, r2);
      return;
    }
    MbrStep(p, h, w2, ids);
    var (w3, r3) := SendTree(h, w2, ids, MbrCall(true), true);
    EndStep(p, h, w3, ids, if r3.Failed? then r3 else Ok([]));
  }
}
