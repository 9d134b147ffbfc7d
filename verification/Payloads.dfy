/** The bytes of every command the host sends in an unlock (opal/src/session.rs:43-55,
    opal/src/session.rs:201-280, with the numbers of opal/src/defs.rs:124-229). */
module Payloads {
  import opened Streams
  import opened Tokens
  import opened Response
  import opened Command
  import opened Session

  // ----- the print of a tree, part by part -----

  function Print(t: Token): seq<byte> {
    Flat(Render(t))
  }

  function PrintAll(ts: TokenList): seq<byte> {
    Flat(RenderList(ts))
  }

  lemma PrintSimple(b: byte)
    ensures Print(Simple(b)) == [b]
  {
    FlatOne([b]);
  }

  lemma PrintUid(uid: seq<byte>)
    ensures Print(BS8(uid)) == [0xA8] + uid
  {
    FlatOne([0xA8] + uid);
  }

  lemma PrintName(k: Token, v: Token)
    ensures Print(Name(k, v)) == [0xF2] + Print(k) + Print(v) + [0xF3]
  {
    FlatBracketed(STARTNAME, Render(k), Render(v), ENDNAME);
  }

  lemma PrintList(ts: TokenList)
    ensures Print(List(ts)) == [0xF0] + PrintAll(ts) + [0xF1]
  {
    assert [[STARTLIST]] + RenderList(ts) + [] == [[STARTLIST]] + RenderList(ts);
    FlatBracketed(STARTLIST, RenderList(ts), [], ENDLIST);
    FlatOne([]);
  }

  lemma PrintCons(last: Token, rest: TokenList)
    ensures PrintAll(Cons(last, rest)) == PrintAll(rest) + Print(last)
    ensures PrintAll(Nil) == []
  {
    FlatConcat(RenderList(rest), Render(last));
    FlatOne([]);
  }

  lemma PrintOne(t: Token)
    ensures PrintAll(Cons(t, Nil)) == Print(t)
  {
    PrintCons(t, Nil);
  }

  lemma PrintNumbered(n: byte, v: Token)
    requires n < 0x40 && Writable(v)
    ensures Print(Numbered(n, v)) == [0xF2, n] + Print(v) + [0xF3]
  {
    PrintName(Simple(n), v);
    PrintSimple(n);
  }

  /** The bytes of a method call, with the status that ends it. */
  function CallBytes(uid: seq<byte>, method_: seq<byte>, args: seq<byte>): seq<byte> {
    [0xF8, 0xA8] + uid + [0xA8] + method_ + [0xF0] + args + [0xF1]
    + [0xF9, 0xF0, 0x00, 0x00, 0x00, 0xF1]
  }

  lemma PrintCall(uid: u64, method_: u64, args: Tree)
    ensures PrintAll(CallOn(uid, method_, args)) + [0xF9, 0xF0, 0x00, 0x00, 0x00, 0xF1]
      == CallBytes(Uid(uid), Uid(method_), PrintAll(args))
  {
    var call := Cons(Simple(CALL), Nil);
    PrintOne(Simple(CALL));
    PrintSimple(CALL);
    PrintCons(BS8(Uid(uid)), call);
    PrintUid(Uid(uid));
    PrintCons(BS8(Uid(method_)), Cons(BS8(Uid(uid)), call));
    PrintUid(Uid(method_));
    PrintCons(List(args), CallTokens(Uid(uid), Uid(method_)));
    PrintList(args);
    hide PrintAll, Print, Uid;
  }

  // ----- on the wire -----

  /** What follows the header of the command a tree becomes: its print, the status list of
      a method call, and zeros up to a multiple of four. */
  lemma OnWire<S>(h: Host<S>, ids: Ids, tree: Tree, eod: bool)
    requires h.comId < 0x1_0000 && |PrintAll(tree)| + 0x100 < TWO_32
    ensures var p := Wire(CommandOf(h, ids, tree, eod));
      var body := PrintAll(tree) + if eod then [0xF9, 0xF0, 0x00, 0x00, 0x00, 0xF1] else [];
      && p[56..] == body + Zeros(PadLen(|body|))
      && FromBigEndian(p[4..6]) == h.comId && FromBigEndian(p[20..24]) == ids.tsn && FromBigEndian(p[24..28]) == ids.hsn
      && FromBigEndian(p[52..56]) == |body|
  {
    EodTokens();
    BuildFacts(PrintAll(tree), eod);
    hide RenderList, PadLen, FromBigEndian;
    WireBytes(CommandOf(h, ids, tree, eod));
    hide Wire;
  }

  lemma UidBytes()
    ensures Uid(SMUID) == [0, 0, 0, 0, 0, 0, 0, 0xFF]
    ensures Uid(LOCKINGSP) == [0, 0, 2, 5, 0, 0, 0, 2]
    ensures Uid(ADMIN1) == [0, 0, 0, 9, 0, 1, 0, 1]
    ensures Uid(MBRCONTROL) == [0, 0, 8, 3, 0, 0, 0, 1]
    ensures Uid(STARTSESSION) == [0, 0, 0, 0, 0, 0, 0xFF, 2]
    ensures Uid(SET) == [0, 0, 0, 6, 0, 0, 0, 0x17]
  {
    EightAre(SMUID, 0, 0, 0, 0, 0, 0, 0, 0xFF);
    EightAre(LOCKINGSP, 0, 0, 2, 5, 0, 0, 0, 2);
    EightAre(ADMIN1, 0, 0, 0, 9, 0, 1, 0, 1);
    EightAre(MBRCONTROL, 0, 0, 8, 3, 0, 0, 0, 1);
    EightAre(STARTSESSION, 0, 0, 0, 0, 0, 0, 0xFF, 2);
    EightAre(SET, 0, 0, 0, 6, 0, 0, 0, 0x17);
    hide BigEndian;
  }

  lemma EightAre(v: u64, a: byte, b: byte, c: byte, d: byte, e: byte, f: byte, g: byte, h: byte)
    requires v == ((((((a * 256 + b) * 256 + c) * 256 + d) * 256 + e) * 256 + f) * 256 + g) * 256 + h
    ensures BigEndian(v, 8) == [a, b, c, d, e, f, g, h]
  {
    hide BigEndian;
    var a2 := a * 256 + b;
    var a3 := a2 * 256 + c;
    var a4 := a3 * 256 + d;
    var a5 := a4 * 256 + e;
    var a6 := a5 * 256 + f;
    var a7 := a6 * 256 + g;
    OneByte(a);
    MoreBytes(a, b, 1);
    MoreBytes(a2, c, 2);
    MoreBytes(a3, d, 3);
    MoreBytes(a4, e, 4);
    MoreBytes(a5, f, 5);
    MoreBytes(a6, g, 6);
    MoreBytes(a7, h, 7);
  }

  lemma OneByte(x: byte)
    ensures BigEndian(x, 1) == [x]
  {
    BigEndianLast(x, 1);
    assert BigEndian(x / 256, 0) == [];
  }

  lemma MoreBytes(v: nat, x: byte, w: nat)
    ensures BigEndian(v * 256 + x, w + 1) == BigEndian(v, w) + [x]
  {
    BigEndianLast(v * 256 + x, w + 1);
    hide BigEndian;
  }

  lemma RangeUidBytes(range: byte)
    ensures Uid(RangeUid(range)) == if range == 0 then [0, 0, 8, 2, 0, 0, 0, 1] else [0, 0, 8, 2, 0, 3, 0, range]
  {
    if range == 0 {
      EightAre(RangeUid(range), 0, 0, 8, 2, 0, 0, 0, 1);
    } else {
      EightAre(RangeUid(range), 0, 0, 8, 2, 0, 3, 0, range);
    }
    hide BigEndian;
  }

  // ----- the four commands -----

  lemma PrintSet(uid: u64, columns: Tree)
    ensures PrintAll(SetCall(uid, columns)) + [0xF9, 0xF0, 0x00, 0x00, 0x00, 0xF1]
      == CallBytes(Uid(uid), Uid(SET), [0xF2, 0x01, 0xF0] + PrintAll(columns) + [0xF1, 0xF3])
  {
    var name := Numbered(0x01, List(columns));
    PrintCall(uid, SET, Tokens1(name));
    PrintOne(name);
    PrintNumbered(0x01, List(columns));
    PrintList(columns);
    hide PrintAll, Print, Uid, CallBytes, Numbered;
    SetArgument(PrintAll(columns));
  }

  lemma SetArgument(c: seq<byte>)
    ensures [0xF2, 0x01] + ([0xF0] + c + [0xF1]) + [0xF3] == [0xF2, 0x01, 0xF0] + c + [0xF1, 0xF3]
  {
  }

  function Bit(b: bool): byte {
    if b then 0x01 else 0x00
  }

  lemma PrintColumn(n: byte, b: bool)
    requires n < 0x40
    ensures Print(Numbered(n, TokenOf(b))) == [0xF2, n, Bit(b), 0xF3]
  {
    PrintNumbered(n, TokenOf(b));
    PrintSimple(Bit(b));
  }

  /** A command on the wire that needs no padding. */
  lemma WholeOnWire<S>(h: Host<S>, ids: Ids, tree: Tree, bytes: seq<byte>)
    requires h.comId < 0x1_0000 && |bytes| % 4 == 0 && |bytes| < 0x1000
    requires PrintAll(tree) + [0xF9, 0xF0, 0x00, 0x00, 0x00, 0xF1] == bytes
    ensures Wire(CommandOf(h, ids, tree, true))[56..] == bytes
  {
    OnWire(h, ids, tree, true);
    hide PrintAll, Wire, CommandOf;
    assert Zeros(0) == [] && bytes + [] == bytes;
  }

  /** The bytes of a Set of some columns of a row. */
  function SetBytes(row: seq<byte>, columns: seq<byte>): seq<byte> {
    [0xF8, 0xA8] + row + [0xA8] + [0, 0, 0, 6, 0, 0, 0, 0x17]
    + [0xF0] + ([0xF2, 0x01, 0xF0] + columns + [0xF1, 0xF3]) + [0xF1]
    + [0xF9, 0xF0, 0x00, 0x00, 0x00, 0xF1]
  }

  lemma SetOnWire<S>(h: Host<S>, ids: Ids, uid: u64, columns: Tree)
    requires h.comId < 0x1_0000 && |PrintAll(columns)| in {4, 8}
    ensures Wire(CommandOf(h, ids, SetCall(uid, columns), true))[56..] == SetBytes(Uid(uid), PrintAll(columns))
  {
    PrintSet(uid, columns);
    UidBytes();
    hide PrintAll, Uid, Wire, CommandOf, SetCall;
    WholeOnWire(h, ids, SetCall(uid, columns), SetBytes(Uid(uid), PrintAll(columns)));
  }

  /** Set MBRDone, in any session. */
  lemma MbrOnWire<S>(h: Host<S>, ids: Ids, done: bool)
    requires h.comId < 0x1_0000
    ensures Wire(CommandOf(h, ids, MbrCall(done), true))[56..]
      == SetBytes([0, 0, 8, 3, 0, 0, 0, 1], [0xF2, 0x02, if done then 0x01 else 0x00, 0xF3])
  {
    var column := Numbered(0x02, TokenOf(done));
    PrintOne(column);
    PrintColumn(0x02, done);
    UidBytes();
    assert MbrCall(done) == SetCall(MBRCONTROL, Tokens1(column));
    hide PrintAll, Print, Uid, Wire, CommandOf, Numbered, SetCall, MbrCall, SetBytes;
    SetOnWire(h, ids, MBRCONTROL, Tokens1(column));
  }

  /** The row of a locking range. */
  function RangeRow(range: byte): (row: seq<byte>)
    ensures |row| == 8
  {
    if range == 0 then [0, 0, 8, 2, 0, 0, 0, 1] else [0, 0, 8, 2, 0, 3, 0, range]
  }

  /** Set ReadLocked and, unless the range is archived, WriteLocked. */
  function RangeColumnBytes(state: LockingState): seq<byte> {
    match state
    case ReadWrite => [0xF2, 0x07, 0x00, 0xF3, 0xF2, 0x08, 0x00, 0xF3]
    case ReadOnly => [0xF2, 0x07, 0x00, 0xF3, 0xF2, 0x08, 0x01, 0xF3]
    case Locked => [0xF2, 0x07, 0x01, 0xF3, 0xF2, 0x08, 0x01, 0xF3]
    case ArchiveLocked => [0xF2, 0x07, 0x00, 0xF3]
    case ArchiveUnlocked => [0xF2, 0x07, 0x00, 0xF3]
  }

  lemma PrintNothing()
    ensures Print(Stream(Nil)) == []
  {
    FlatOne([]);
  }

  lemma PrintRange(state: LockingState, read: Token, write: Token)
    requires read == Numbered(0x07, TokenOf(state.Locked?))
    requires write == if state.ArchiveLocked? || state.ArchiveUnlocked? then Stream(Nil)
                      else Numbered(0x08, TokenOf(state.ReadOnly? || state.Locked?))
    ensures PrintAll(Tokens2(read, write)) == RangeColumnBytes(state)
  {
    PrintCons(write, Cons(read, Nil));
    PrintOne(read);
    PrintColumn(0x07, state.Locked?);
    PrintColumn(0x08, state.ReadOnly? || state.Locked?);
    PrintNothing();
    hide PrintAll, Numbered, Print, TokenOf;
  }

  /** Set the locks of any range, in any session. */
  lemma RangeOnWire<S>(h: Host<S>, ids: Ids, range: byte, state: LockingState)
    requires h.comId < 0x1_0000
    ensures Wire(CommandOf(h, ids, RangeCall(range, state), true))[56..]
      == SetBytes(RangeRow(range), RangeColumnBytes(state))
  {
    var read := Numbered(0x07, TokenOf(state.Locked?));
    var write := if state.ArchiveLocked? || state.ArchiveUnlocked? then Stream(Nil)
                 else Numbered(0x08, TokenOf(state.ReadOnly? || state.Locked?));
    assert RangeCall(range, state) == SetCall(RangeUid(range), Tokens2(read, write));
    PrintRange(state, read, write);
    RangeUidBytes(range);
    assert |RangeColumnBytes(state)| in {4, 8};
    hide PrintAll, Print, Uid, Wire, CommandOf, Numbered, SetCall, RangeCall, RangeUid, RangeColumnBytes, RangeRow;
    hide SetBytes;
    SetOnWire(h, ids, RangeUid(range), Tokens2(read, write));
  }

  /** End the session. */
  lemma EndOnWire<S>(h: Host<S>, ids: Ids)
    requires h.comId < 0x1_0000
    ensures Wire(CommandOf(h, ids, EndCall(), false))[56..] == [0xFA, 0, 0, 0]
  {
    PrintOne(Simple(ENDOFSESSION));
    PrintSimple(ENDOFSESSION);
    OnWire(h, ids, EndCall(), false);
    hide PrintAll, Print, Wire, CommandOf;
    assert [0xFA] + [] + Zeros(3) == [0xFA, 0, 0, 0];
  }

  lemma MbrBytes()
    ensures SetBytes([0, 0, 8, 3, 0, 0, 0, 1], [0xF2, 0x02, 0x01, 0xF3]) == [
      0xF8, 0xA8, 0, 0, 8, 3, 0, 0, 0, 1, 0xA8, 0, 0, 0, 6, 0, 0, 0, 0x17,
      0xF0, 0xF2, 0x01, 0xF0, 0xF2, 0x02, 0x01, 0xF3, 0xF1, 0xF3, 0xF1, 0xF9, 0xF0, 0, 0, 0, 0xF1]
  {
  }

  // ----- the start of a session -----

  lemma PrintStream(ts: TokenList)
    ensures Print(Stream(ts)) == PrintAll(ts)
  {
  }

  lemma PrintAtom(v: u64, s: seq<byte>)
    ensures Print(Uint(v)) == UintAtom(v) && Print(Bytes(s)) == BytesAtom(s)
  {
    FlatOne(UintAtom(v));
    FlatOne(BytesAtom(s));
  }

  /** The host's session number, the provider and the write flag. */
  lemma PrintFixed(sp: seq<byte>)
    requires |sp| == 8
    ensures PrintAll(Cons(Simple(0x01), Cons(BS8(sp), Cons(Uint(HOST_SESSION), Nil))))
      == [0x81, 0x69, 0xA8] + sp + [0x01]
  {
    PrintOne(Uint(HOST_SESSION));
    PrintAtom(HOST_SESSION, []);
    AtomBytes(HOST_SESSION, []);
    PrintCons(BS8(sp), Cons(Uint(HOST_SESSION), Nil));
    PrintUid(sp);
    PrintCons(Simple(0x01), Cons(BS8(sp), Cons(Uint(HOST_SESSION), Nil)));
    PrintSimple(0x01);
    hide PrintAll, Print, UintAtom;
  }

  lemma PrintKey(key: Key)
    ensures Print(Numbered(0x00, Bytes(key))) == [0xF2, 0x00] + ([0xD0, 0x20] + key) + [0xF3]
  {
    PrintNumbered(0x00, Bytes(key));
    PrintAtom(0, key);
    AtomBytes(0, key);
    hide Print, BytesAtom, Numbered;
  }

  lemma PrintAuthority()
    ensures Print(Numbered(0x03, BS8(Uid(ADMIN1)))) == [0xF2, 0x03] + ([0xA8] + [0, 0, 0, 9, 0, 1, 0, 1]) + [0xF3]
  {
    PrintNumbered(0x03, BS8(Uid(ADMIN1)));
    PrintUid(Uid(ADMIN1));
    UidBytes();
    hide Print, Uid, Numbered;
  }

  /** The key, and the authority that signs with it. */
  lemma PrintSigned(key: Key)
    ensures PrintAll(Tokens2(Numbered(0x00, Bytes(key)), Numbered(0x03, BS8(Uid(ADMIN1)))))
      == ([0xF2, 0x00] + ([0xD0, 0x20] + key) + [0xF3]) + ([0xF2, 0x03] + ([0xA8] + [0, 0, 0, 9, 0, 1, 0, 1]) + [0xF3])
  {
    var challenge, authority := Numbered(0x00, Bytes(key)), Numbered(0x03, BS8(Uid(ADMIN1)));
    PrintOne(challenge);
    PrintCons(authority, Cons(challenge, Nil));
    hide PrintAll, Print, Numbered;
    PrintKey(key);
    PrintAuthority();
  }

  function StartBytes(args: seq<byte>): seq<byte> {
    [0xF8, 0xA8] + [0, 0, 0, 0, 0, 0, 0, 0xFF] + [0xA8] + [0, 0, 0, 0, 0, 0, 0xFF, 2]
    + [0xF0] + args + [0xF1]
    + [0xF9, 0xF0, 0x00, 0x00, 0x00, 0xF1]
  }

  lemma PrintStart(fixed: Tree, signed: Tree, timeout: Token)
    requires Writable(timeout)
    ensures PrintAll(CallOn(SMUID, STARTSESSION, Push(Push(fixed, Stream(signed)), timeout)))
        + [0xF9, 0xF0, 0x00, 0x00, 0x00, 0xF1]
      == StartBytes(PrintAll(fixed) + PrintAll(signed) + Print(timeout))
  {
    var args := Push(Push(fixed, Stream(signed)), timeout);
    PrintCall(SMUID, STARTSESSION, args);
    PrintCons(timeout, Cons(Stream(signed), fixed));
    PrintCons(Stream(signed), fixed);
    PrintStream(signed);
    UidBytes();
    hide PrintAll, Print, Uid;
  }

  /** Start a session of the locking provider as Admin1, with any key. */
  lemma StartOnWire<S>(h: Host<S>, ids: Ids, key: Key)
    requires h.comId < 0x1_0000
    ensures Wire(CommandOf(h, ids, StartCall(false, key), true))[56..]
      == StartBytes([0x81, 0x69, 0xA8] + [0, 0, 2, 5, 0, 0, 0, 2] + [0x01]
                    + (([0xF2, 0x00] + ([0xD0, 0x20] + key) + [0xF3])
                       + ([0xF2, 0x03] + ([0xA8] + [0, 0, 0, 9, 0, 1, 0, 1]) + [0xF3])))
  {
    hide *;
    StartIs(key);
    PrintStart(Fixed(), Signed(key), Stream(Nil));
    PrintNothing();
    PrintParts(key);
    StartWhole(h, ids, StartCall(false, key), [0x81, 0x69, 0xA8] + [0, 0, 2, 5, 0, 0, 0, 2] + [0x01],
               ([0xF2, 0x00] + ([0xD0, 0x20] + key) + [0xF3])
               + ([0xF2, 0x03] + ([0xA8] + [0, 0, 0, 9, 0, 1, 0, 1]) + [0xF3]));
  }

  function Fixed(): Tree {
    Push(Tokens2(Uint(HOST_SESSION), BS8(Uid(LOCKINGSP))), Simple(0x01))
  }

  function Signed(key: Key): Tree {
    Tokens2(Numbered(0x00, Bytes(key)), Numbered(0x03, BS8(Uid(ADMIN1))))
  }

  lemma StartIs(key: Key)
    ensures Writable(Stream(Nil))
    ensures StartCall(false, key) == CallOn(SMUID, STARTSESSION, Push(Push(Fixed(), Stream(Signed(key))), Stream(Nil)))
  {
  }

  lemma PrintParts(key: Key)
    ensures PrintAll(Fixed()) == [0x81, 0x69, 0xA8] + [0, 0, 2, 5, 0, 0, 0, 2] + [0x01]
    ensures PrintAll(Signed(key))
      == ([0xF2, 0x00] + ([0xD0, 0x20] + key) + [0xF3]) + ([0xF2, 0x03] + ([0xA8] + [0, 0, 0, 9, 0, 1, 0, 1]) + [0xF3])
  {
    PrintFixed(Uid(LOCKINGSP));
    PrintSigned(key);
    UidBytes();
    hide PrintAll, Print, Uid, Numbered;
  }

  lemma StartWhole<S>(h: Host<S>, ids: Ids, call: Tree, fixed: seq<byte>, signed: seq<byte>)
    requires h.comId < 0x1_0000 && |fixed| == 12 && |signed| == 49
    requires PrintAll(call) + [0xF9, 0xF0, 0x00, 0x00, 0x00, 0xF1] == StartBytes(fixed + signed + [])
    ensures Wire(CommandOf(h, ids, call, true))[56..] == StartBytes(fixed + signed)
  {
    assert fixed + signed + [] == fixed + signed;
    hide PrintAll, Wire, CommandOf;
    WholeOnWire(h, ids, call, StartBytes(fixed + signed));
  }

  /** `SessionTimeout`. */
  function TimeoutName(): seq<byte> {
    [0x53, 0x65, 0x73, 0x73, 0x69, 0x6F, 0x6E, 0x54, 0x69, 0x6D, 0x65, 0x6F, 0x75, 0x74]
  }

  lemma PrintTimeout()
    ensures Print(Timeout())
      == [0xF2] + ([0xAE] + TimeoutName())
         + [0x82, 0xEA, 0x60] + [0xF3]
  {
    PrintName(Bytes(SESSION_TIMEOUT), Uint(60000));
    PrintAtom(60000, SESSION_TIMEOUT);
    AtomBytes(60000, SESSION_TIMEOUT);
    hide Print, UintAtom, BytesAtom;
  }

  /** On an enterprise drive the start carries a timeout and no key, whatever the challenge. */
  lemma EnterpriseStartOnWire<S>(h: Host<S>, ids: Ids, key: Key)
    requires h.comId < 0x1_0000
    ensures Wire(CommandOf(h, ids, StartCall(true, key), true))[56..]
      == StartBytes([0x81, 0x69, 0xA8] + [0, 0, 2, 5, 0, 0, 0, 2] + [0x01]
                    + ([0xF2] + ([0xAE] + TimeoutName())
                       + [0x82, 0xEA, 0x60] + [0xF3])) + [0]
  {
    var fixed := Push(Tokens2(Uint(HOST_SESSION), BS8(Uid(LOCKINGSP))), Simple(0x01));
    var call := StartCall(true, key);
    assert call == CallOn(SMUID, STARTSESSION, Push(Push(fixed, Stream(Nil)), Timeout()));
    PrintStart(fixed, Nil, Timeout());
    PrintCons(Simple(0), Nil);
    PrintFixed(Uid(LOCKINGSP));
    PrintTimeout();
    UidBytes();
    hide PrintAll, Print, Uid, Wire, CommandOf, StartCall, Timeout;
    EnterpriseWhole(h, ids, call, [0x81, 0x69, 0xA8] + [0, 0, 2, 5, 0, 0, 0, 2] + [0x01],
                    [0xF2] + ([0xAE] + TimeoutName())
                    + [0x82, 0xEA, 0x60] + [0xF3]);
  }

  lemma EnterpriseWhole<S>(h: Host<S>, ids: Ids, call: Tree, fixed: seq<byte>, timeout: seq<byte>)
    requires h.comId < 0x1_0000 && |fixed| == 12 && |timeout| == 20
    requires PrintAll(call) + [0xF9, 0xF0, 0x00, 0x00, 0x00, 0xF1] == StartBytes(fixed + [] + timeout)
    ensures Wire(CommandOf(h, ids, call, true))[56..] == StartBytes(fixed + timeout) + [0]
  {
    assert fixed + [] + timeout == fixed + timeout;
    hide PrintAll, Wire, CommandOf;
    OnWire(h, ids, call, true);
    assert Zeros(1) == [0];
  }
}
