/** The TCG token stream: what the host's token types print, and what a printed
    stream means (opal/src/defs.rs; TCG Storage Architecture Core Specification,
    section 3.2.2.3). */
module Tokens {
  import opened Streams

  const STARTLIST: byte := 0xF0
  const ENDLIST: byte := 0xF1
  const STARTNAME: byte := 0xF2
  const ENDNAME: byte := 0xF3
  const CALL: byte := 0xF8
  const ENDOFDATA: byte := 0xF9
  const ENDOFSESSION: byte := 0xFA
  const EMPTYATOM: byte := 0xFF

  /** The types that implement `Token`. `Stream` is an already printed token stream,
      `List` a cons list that prints its own brackets. */
  datatype Token =
    | Simple(token: byte)
    | BS8(uid: seq<byte>)
    | Uint(value: u64)
    | Bytes(bytes: seq<byte>)
    | Name(key: Token, val: Token)
    | List(items: TokenList)
    | Stream(stream: TokenList)

  /** `TokensNil` and `TokensCons`: the token pushed last comes first. */
  datatype TokenList = Nil | Cons(last: Token, rest: TokenList)

  /** What the writers can print so that each token stands for itself: a simple
      token is a tiny atom or a control token other than brackets and the empty
      atom, a UID has 8 bytes, a byte string fewer than 2048. */
  predicate Writable(t: Token) {
    match t
    case Simple(b) => b < 0x80 || (0xF4 <= b < EMPTYATOM)
    case BS8(uid) => |uid| == 8
    case Uint(_) => true
    case Bytes(bytes) => |bytes| < 2048
    case Name(k, v) => Writable(k) && Writable(v)
    case List(items) => WritableList(items)
    case Stream(items) => WritableList(items)
  }

  predicate WritableList(ts: TokenList) {
    match ts
    case Nil => true
    case Cons(last, rest) => WritableList(rest) && Writable(last)
  }

  /** What the writers print without a panic: any simple token, and short byte strings. */
  predicate Printable(t: Token) {
    match t
    case Simple(_) => true
    case BS8(uid) => |uid| == 8
    case Uint(_) => true
    case Bytes(bytes) => |bytes| < 2048
    case Name(k, v) => Printable(k) && Printable(v)
    case List(items) => PrintableList(items)
    case Stream(items) => PrintableList(items)
  }

  predicate PrintableList(ts: TokenList) {
    match ts
    case Nil => true
    case Cons(last, rest) => PrintableList(rest) && Printable(last)
  }

  lemma {:induction false} WritableIsPrintable(t: Token)
    requires Writable(t)
    ensures Printable(t)
    decreases t, 1
  {
    match t {
      case Name(k, v) =>
        WritableIsPrintable(k);
        WritableIsPrintable(v);
      case List(items) => WritableListIsPrintable(items);
      case Stream(items) => WritableListIsPrintable(items);
      case _ =>
    }
  }

  lemma {:induction false} WritableListIsPrintable(ts: TokenList)
    requires WritableList(ts)
    ensures PrintableList(ts)
    decreases ts, 0
  {
    match ts {
      case Nil =>
      case Cons(last, rest) =>
        WritableListIsPrintable(rest);
        WritableIsPrintable(last);
    }
  }

  // ----- numbers -----

  function Pow256(w: nat): nat
    ensures Pow256(w) > 0
  {
    if w == 0 then 1 else 256 * Pow256(w - 1)
  }

  /** The `w` low bytes of `v`, most significant first. */
  function BigEndian(v: nat, w: nat): (r: seq<byte>)
    ensures |r| == w
  {
    if w == 0 then [] else BigEndian(v / 256, w - 1) + [v % 256]
  }

  function FromBigEndian(s: seq<byte>): nat {
    if s == [] then 0 else 256 * FromBigEndian(s[..|s| - 1]) + s[|s| - 1]
  }

  lemma {:induction false} BigEndianRoundTrip(v: nat, w: nat)
    requires v < Pow256(w)
    ensures FromBigEndian(BigEndian(v, w)) == v
  {
    if w > 0 {
      var s := BigEndian(v, w);
      assert s[..|s| - 1] == BigEndian(v / 256, w - 1);
      BigEndianRoundTrip(v / 256, w - 1);
    }
  }

  lemma {:induction false} BigEndianBound(s: seq<byte>)
    ensures FromBigEndian(s) < Pow256(|s|)
  {
    if s != [] {
      BigEndianBound(s[..|s| - 1]);
    }
  }

  lemma {:induction false} BigEndianOf(s: seq<byte>)
    ensures BigEndian(FromBigEndian(s), |s|) == s
  {
    if s != [] {
      BigEndianOf(s[..|s| - 1]);
    }
  }

  /** Payload bytes of the shortest of the forms the writer has. */
  function Width(v: u64): (w: nat)
    ensures w in {0, 1, 2, 4, 8}
  {
    if v < 0x40 then 0
    else if v < 0x100 then 1
    else if v < 0x1_0000 then 2
    else if v < 0x1_0000_0000 then 4
    else 8
  }

  function UintAtom(v: u64): seq<byte> {
    if v < 0x40 then [v] else [0x80 + Width(v)] + BigEndian(v, Width(v))
  }

  function BytesAtom(s: seq<byte>): seq<byte> {
    if s == [] then [0xA1, 0x00]
    else if |s| < 16 then [0xA0 + |s|] + s
    else [0xD0 + |s| / 256 % 8, |s| % 256] + s
  }

  lemma PowValues()
    ensures Pow256(1) == 0x100 && Pow256(2) == 0x1_0000 && Pow256(4) == 0x1_0000_0000
    ensures Pow256(8) == TWO_64
  {
    assert Pow256(3) == 0x100_0000;
    assert Pow256(5) == 0x100_0000_0000;
    assert Pow256(6) == 0x1_0000_0000_0000;
    assert Pow256(7) == 0x100_0000_0000_0000;
  }

  /** The payload holds the value, and no shorter form of the writer could. */
  lemma UintAtomShortest(v: u64)
    ensures v < 0x40 ==> UintAtom(v) == [v]
    ensures v >= 0x40 ==>
      && FromBigEndian(UintAtom(v)[1..]) == v
      && forall w | w in {1, 2, 4, 8} && v < Pow256(w) :: w >= Width(v)
  {
    PowValues();
    if v >= 0x40 {
      assert UintAtom(v)[1..] == BigEndian(v, Width(v));
      BigEndianRoundTrip(v, Width(v));
    }
  }

  /** The bytes of every atom the writers print. */
  lemma AtomBytes(v: u64, s: seq<byte>)
    ensures v < 0x40 ==> UintAtom(v) == [v]
    ensures 0x40 <= v < 0x100 ==> UintAtom(v) == [0x81, v]
    ensures 0x100 <= v < 0x1_0000 ==> UintAtom(v) == [0x82, v / 0x100, v % 0x100]
    ensures 0x1_0000 <= v < 0x1_0000_0000 ==>
      UintAtom(v) == [0x84, v / 0x100 / 0x100 / 0x100, v / 0x100 / 0x100 % 0x100, v / 0x100 % 0x100, v % 0x100]
    ensures v >= 0x1_0000_0000 ==> |UintAtom(v)| == 9 && UintAtom(v)[0] == 0x88
    ensures BytesAtom([]) == [0xA1, 0x00]
    ensures 0 < |s| < 16 ==> BytesAtom(s) == [0xA0 + |s|] + s
    ensures 16 <= |s| < 2048 ==> BytesAtom(s) == [0xD0 + |s| / 0x100, |s| % 0x100] + s
  {
    if 0x40 <= v < 0x1_0000_0000 {
      var w := Width(v);
      assert BigEndian(v / 0x100, 0) == [];
      BigEndianLast(v, w);
      if w > 1 { BigEndianLast(v / 0x100, w - 1); }
      if w > 2 {
        BigEndianLast(v / 0x100 / 0x100, 2);
        BigEndianLast(v / 0x100 / 0x100 / 0x100, 1);
      }
      hide BigEndian;
    }
  }

  lemma BigEndianLast(v: nat, w: nat)
    requires w > 0
    ensures BigEndian(v, w) == BigEndian(v / 256, w - 1) + [v % 256] && BigEndian(v, 0) == []
  {
  }

  // ----- printing -----

  /** The tokens a tree prints, in the order in which they were pushed. */
  function Render(t: Token): seq<seq<byte>> {
    match t
    case Simple(b) => [[b]]
    case BS8(uid) => [[0xA8] + uid]
    case Uint(v) => [UintAtom(v)]
    case Bytes(bytes) => [BytesAtom(bytes)]
    case Name(k, v) => [[STARTNAME]] + Render(k) + Render(v) + [[ENDNAME]]
    case List(items) => [[STARTLIST]] + RenderList(items) + [[ENDLIST]]
    case Stream(items) => RenderList(items)
  }

  function RenderList(ts: TokenList): seq<seq<byte>> {
    match ts
    case Nil => []
    case Cons(last, rest) => RenderList(rest) + Render(last)
  }

  function Flat(ts: seq<seq<byte>>): seq<byte> {
    if ts == [] then [] else ts[0] + Flat(ts[1..])
  }

  lemma {:induction false} FlatConcat(a: seq<seq<byte>>, b: seq<seq<byte>>)
    ensures Flat(a + b) == Flat(a) + Flat(b)
  {
    if a == [] {
      assert a + b == b;
    } else {
      assert (a + b)[1..] == a[1..] + b;
      FlatConcat(a[1..], b);
    }
  }

  lemma FlatOne(t: seq<byte>)
    ensures Flat([t]) == t && Flat([]) == []
  {
    assert [t][1..] == [];
  }

  // ----- the writers -----

  class Buffer {
    var bytes: seq<byte>

    constructor ()
      ensures bytes == []
    {
      bytes := [];
    }

    method Push(b: byte)
      modifies this
      ensures bytes == old(bytes) + [b]
    {
      bytes := bytes + [b];
    }

    method Extend(s: seq<byte>)
      modifies this
      ensures bytes == old(bytes) + s
    {
      bytes := bytes + s;
    }
  }

  /** `v >> (8 * i)`, by a loop-free recursion. */
  function ShiftRight(v: nat, i: nat): nat {
    if i == 0 then v else ShiftRight(v, i - 1) / 256
  }

  lemma {:induction false} BigEndianPrefix(v: nat, w: nat, i: nat)
    requires i <= w
    ensures BigEndian(v, w)[..w - i] == BigEndian(ShiftRight(v, i), w - i)
  {
    if i > 0 {
      BigEndianPrefix(v, w, i - 1);
    }
  }

  lemma BigEndianStep(v: nat, w: nat, i: nat)
    requires i < w
    ensures BigEndian(v, w)[..w - i] == BigEndian(v, w)[..w - (i + 1)] + [ShiftRight(v, i) % 256]
  {
    BigEndianPrefix(v, w, i);
    BigEndianPrefix(v, w, i + 1);
  }

  method WriteUint(v: u64, buffer: Buffer)
    modifies buffer
    ensures buffer.bytes == old(buffer.bytes) + UintAtom(v)
  {
    hide BigEndian, ShiftRight;
    if v < 64 {
      buffer.Push(v % 64);
      return;
    }
    var startat: int := 0;
    if v < 0x100 {
      buffer.Push(0x81);
    } else if v < 0x1_0000 {
      buffer.Push(0x82);
      startat := 1;
    } else if v < 0x1_0000_0000 {
      buffer.Push(0x84);
      startat := 3;
    } else {
      buffer.Push(0x88);
      startat := 7;
    }
    ghost var w := startat + 1;
    while startat > -1
      invariant -1 <= startat < w == Width(v)
      invariant buffer.bytes == old(buffer.bytes) + [0x80 + w] + BigEndian(v, w)[..w - (startat + 1)]
    {
      BigEndianStep(v, w, startat);
      buffer.Push(ShiftRight(v, startat) % 256);
      startat := startat - 1;
    }
    assert BigEndian(v, w)[..w] == BigEndian(v, w);
  }

  method WriteBytes(s: seq<byte>, buffer: Buffer)
    requires |s| < 2048
    modifies buffer
    ensures buffer.bytes == old(buffer.bytes) + BytesAtom(s)
  {
    if s == [] {
      buffer.Push(0xA1);
      buffer.Push(0x00);
    } else if |s| < 16 {
      buffer.Push(0xA0 + |s|);
    } else {
      buffer.Push(0xD0 + |s| / 256 % 8);
      buffer.Push(|s| % 256);
    }
    buffer.Extend(s);
  }

  method Write(t: Token, buffer: Buffer)
    requires Printable(t)
    modifies buffer
    ensures buffer.bytes == old(buffer.bytes) + Flat(Render(t))
    decreases t, 1
  {
    hide Flat, UintAtom, BytesAtom;
    match t {
      case Simple(b) =>
        buffer.Push(b);
        FlatOne([b]);
      case BS8(uid) =>
        buffer.Push(0xA8);
        buffer.Extend(uid);
        FlatOne([0xA8] + uid);
      case Uint(v) =>
        WriteUint(v, buffer);
        FlatOne(UintAtom(v));
      case Bytes(bytes) =>
        WriteBytes(bytes, buffer);
        FlatOne(BytesAtom(bytes));
      case Name(k, v) =>
        buffer.Push(STARTNAME);
        Write(k, buffer);
        Write(v, buffer);
        buffer.Push(ENDNAME);
        FlatBracketed(STARTNAME, Render(k), Render(v), ENDNAME);
      case List(items) =>
        buffer.Push(STARTLIST);
        WriteBare(items, buffer);
        buffer.Push(ENDLIST);
        assert [[STARTLIST]] + RenderList(items) + [] == [[STARTLIST]] + RenderList(items);
        FlatOne([]);
        FlatBracketed(STARTLIST, RenderList(items), [], ENDLIST);
      case Stream(items) =>
        WriteBare(items, buffer);
    }
  }

  method WriteBare(ts: TokenList, buffer: Buffer)
    requires PrintableList(ts)
    modifies buffer
    ensures buffer.bytes == old(buffer.bytes) + Flat(RenderList(ts))
    decreases ts, 0
  {
    hide Flat, Render, Printable;
    FlatOne([]);
    match ts {
      case Nil =>
      case Cons(last, rest) =>
        WriteBare(rest, buffer);
        Write(last, buffer);
        FlatConcat(RenderList(rest), Render(last));
    }
  }

  lemma FlatBracketed(open: byte, a: seq<seq<byte>>, b: seq<seq<byte>>, close: byte)
    ensures Flat([[open]] + a + b + [[close]]) == [open] + Flat(a) + Flat(b) + [close]
  {
    FlatConcat([[open]] + a + b, [[close]]);
    FlatConcat([[open]] + a, b);
    FlatConcat([[open]], a);
    FlatOne([open]);
    FlatOne([close]);
  }

  // ----- meaning -----

  /** What a token stream says, independent of how the host came to print it.
      `ControlV` covers control tokens and the tiny signed atoms. */
  datatype Value =
    | UintV(n: nat)
    | ControlV(token: byte)
    | BytesV(bytes: seq<byte>)
    | ListV(items: seq<Value>)
    | NameV(items: seq<Value>)

  /** The values of a tree. An empty byte string means `[0]`, a small simple token is
      a number, a UID a byte string, and a stream dissolves into its surroundings. */
  function Meaning(t: Token): seq<Value> {
    match t
    case Simple(b) => if b < 0x40 then [UintV(b)] else [ControlV(b)]
    case BS8(uid) => [BytesV(uid)]
    case Uint(v) => [UintV(v)]
    case Bytes(bytes) => [BytesV(if bytes == [] then [0] else bytes)]
    case Name(k, v) => [NameV(Meaning(k) + Meaning(v))]
    case List(items) => [ListV(MeaningList(items))]
    case Stream(items) => MeaningList(items)
  }

  function MeaningList(ts: TokenList): seq<Value> {
    match ts
    case Nil => []
    case Cons(last, rest) => MeaningList(rest) + Meaning(last)
  }

  /** What a single token that is no bracket stands for. */
  function AtomMeaning(t: seq<byte>): Option<Value> {
    if t == [] then None
    else if t[0] < 0x40 then Some(UintV(t[0]))
    else if t[0] < 0x80 then Some(ControlV(t[0]))
    else if t[0] < 0x90 then Some(UintV(FromBigEndian(t[1..])))
    else if 0xA0 <= t[0] < 0xC0 then Some(BytesV(t[1..]))
    else if 0xD0 <= t[0] < 0xE0 && |t| >= 2 then Some(BytesV(t[2..]))
    else if 0xF4 <= t[0] < EMPTYATOM then Some(ControlV(t[0]))
    else None
  }

  datatype Forest = Forest(values: seq<Value>, rest: seq<seq<byte>>)

  function Prepend(vs: seq<Value>, r: Option<Forest>): Option<Forest> {
    match r
    case None => None
    case Some(f) => Some(Forest(vs + f.values, f.rest))
  }

  /** A recursive-descent reader of token sequences, up to the end or to a closing
      bracket it did not open. */
  function ReadForest(ts: seq<seq<byte>>): (r: Option<Forest>)
    ensures r.Some? ==> |r.value.rest| <= |ts|
    decreases |ts|
  {
    if ts == [] || ts[0] == [ENDLIST] || ts[0] == [ENDNAME] then Some(Forest([], ts))
    else if ts[0] == [STARTLIST] || ts[0] == [STARTNAME] then
      var list := ts[0] == [STARTLIST];
      match ReadForest(ts[1..])
      case None => None
      case Some(inner) =>
        if inner.rest == [] || inner.rest[0] != [if list then ENDLIST else ENDNAME] then None
        else Prepend([if list then ListV(inner.values) else NameV(inner.values)], ReadForest(inner.rest[1..]))
    else
      match AtomMeaning(ts[0])
      case None => None
      case Some(v) => Prepend([v], ReadForest(ts[1..]))
  }

  lemma AtomMeanings(t: Token)
    requires Writable(t) && (t.Simple? || t.BS8? || t.Uint? || t.Bytes?)
    ensures |Render(t)| == 1 && Render(t)[0] !in {[STARTLIST], [ENDLIST], [STARTNAME], [ENDNAME]}
    ensures |Meaning(t)| == 1 && AtomMeaning(Render(t)[0]) == Some(Meaning(t)[0])
  {
    if t.Uint? {
      UintAtomShortest(t.value);
    }
  }

  lemma ReadBracketed(list: bool, inside: seq<seq<byte>>, vs: seq<Value>, tail: seq<seq<byte>>)
    requires var close := [if list then ENDLIST else ENDNAME];
      ReadForest(inside + ([close] + tail)) == Prepend(vs, ReadForest([close] + tail))
    ensures var open, close := [if list then STARTLIST else STARTNAME], [if list then ENDLIST else ENDNAME];
      ReadForest([open] + inside + [close] + tail)
        == Prepend([if list then ListV(vs) else NameV(vs)], ReadForest(tail))
  {
    var open, close := [if list then STARTLIST else STARTNAME], [if list then ENDLIST else ENDNAME];
    var ts := [open] + inside + [close] + tail;
    ReadClosed([close] + tail);
    hide ReadForest, AtomMeaning;
    assert ReadForest(inside + ([close] + tail)) == Some(Forest(vs, [close] + tail)) by {
      assert vs + [] == vs;
    }
    assert ts[0] == open && ts[1..] == inside + ([close] + tail);
    assert ([close] + tail)[1..] == tail;
    ReadOpened(list, ts, Forest(vs, [close] + tail));
  }

  lemma ReadClosed(ts: seq<seq<byte>>)
    requires ts != [] && ts[0] in {[ENDLIST], [ENDNAME]}
    ensures ReadForest(ts) == Some(Forest([], ts))
  {
  }

  lemma ReadOpened(list: bool, ts: seq<seq<byte>>, inner: Forest)
    requires ts != [] && ts[0] == [if list then STARTLIST else STARTNAME] && ReadForest(ts[1..]) == Some(inner)
    requires inner.rest != [] && inner.rest[0] == [if list then ENDLIST else ENDNAME]
    ensures ReadForest(ts)
      == Prepend([if list then ListV(inner.values) else NameV(inner.values)], ReadForest(inner.rest[1..]))
  {
    hide AtomMeaning;
  }

  /** Reading what a tree printed gives its meaning, whatever follows. */
  lemma {:induction false} ReadRender(t: Token, tail: seq<seq<byte>>)
    requires Writable(t)
    ensures ReadForest(Render(t) + tail) == Prepend(Meaning(t), ReadForest(tail))
    decreases t, 1
  {
    hide ReadForest, AtomMeaning, Prepend;
    match t {
      case Name(k, v) =>
        var close := [[ENDNAME]] + tail;
        ReadRender(v, close);
        ReadRender(k, Render(v) + close);
        assert Render(k) + Render(v) + close == Render(k) + (Render(v) + close);
        PrependTwice(Meaning(k), Meaning(v), ReadForest(close));
        ReadBracketed(false, Render(k) + Render(v), Meaning(k) + Meaning(v), tail);
        assert Render(t) == [[STARTNAME]] + (Render(k) + Render(v)) + [[ENDNAME]];
      case List(items) =>
        ReadRenderList(items, [[ENDLIST]] + tail);
        ReadBracketed(true, RenderList(items), MeaningList(items), tail);
      case Stream(items) =>
        ReadRenderList(items, tail);
      case _ =>
        ReadAtom(t, tail);
    }
  }

  lemma ReadAtom(t: Token, tail: seq<seq<byte>>)
    requires Writable(t) && (t.Simple? || t.BS8? || t.Uint? || t.Bytes?)
    ensures ReadForest(Render(t) + tail) == Prepend(Meaning(t), ReadForest(tail))
  {
    AtomMeanings(t);
    hide Render, Meaning, AtomMeaning;
    assert (Render(t) + tail)[1..] == tail;
    assert Meaning(t) == [Meaning(t)[0]];
  }

  lemma {:induction false} ReadRenderList(ts: TokenList, tail: seq<seq<byte>>)
    requires WritableList(ts)
    ensures ReadForest(RenderList(ts) + tail) == Prepend(MeaningList(ts), ReadForest(tail))
    decreases ts, 0
  {
    match ts {
      case Nil =>
        assert [] + tail == tail;
        if ReadForest(tail).Some? { assert [] + ReadForest(tail).value.values == ReadForest(tail).value.values; }
      case Cons(last, rest) =>
        ReadRender(last, tail);
        ReadRenderList(rest, Render(last) + tail);
        assert RenderList(ts) + tail == RenderList(rest) + (Render(last) + tail);
        PrependTwice(MeaningList(rest), Meaning(last), ReadForest(tail));
    }
  }

  lemma PrependTwice(a: seq<Value>, b: seq<Value>, r: Option<Forest>)
    ensures Prepend(a, Prepend(b, r)) == Prepend(a + b, r)
  {
    if r.Some? {
      assert a + (b + r.value.values) == a + b + r.value.values;
    }
  }

  /** A tree's meaning can be read back from its tokens. */
  lemma MeaningRecovered(ts: TokenList)
    requires WritableList(ts)
    ensures ReadForest(RenderList(ts)) == Some(Forest(MeaningList(ts), []))
  {
    ReadRenderList(ts, []);
    assert RenderList(ts) + [] == RenderList(ts);
    assert MeaningList(ts) + [] == MeaningList(ts);
  }

  // ----- the meaning determines the print -----

  /** The tokens of a value; values no writer can print have none. */
  function Unread(v: Value): seq<seq<byte>> {
    match v
    case UintV(n) => if n < TWO_64 then [UintAtom(n)] else []
    case ControlV(b) => [[b]]
    case BytesV(bytes) => if |bytes| < 2048 then [BytesAtom(bytes)] else []
    case ListV(items) => [[STARTLIST]] + UnreadAll(items) + [[ENDLIST]]
    case NameV(items) => [[STARTNAME]] + UnreadAll(items) + [[ENDNAME]]
  }

  function UnreadAll(vs: seq<Value>): seq<seq<byte>> {
    if vs == [] then [] else Unread(vs[0]) + UnreadAll(vs[1..])
  }

  lemma {:induction false} UnreadConcat(a: seq<Value>, b: seq<Value>)
    ensures UnreadAll(a + b) == UnreadAll(a) + UnreadAll(b)
  {
    if a == [] {
      assert a + b == b;
    } else {
      assert (a + b)[1..] == a[1..] + b;
      UnreadConcat(a[1..], b);
    }
  }

  lemma {:induction false} RenderIsUnread(t: Token)
    requires Writable(t)
    ensures Render(t) == UnreadAll(Meaning(t))
    decreases t, 1
  {
    hide UintAtom, BytesAtom, UnreadAll;
    match t {
      case Name(k, v) =>
        RenderIsUnread(k);
        RenderIsUnread(v);
        UnreadConcat(Meaning(k), Meaning(v));
        assert Render(t) == [[STARTNAME]] + (Render(k) + Render(v)) + [[ENDNAME]];
      case List(items) =>
        RenderListIsUnread(items);
      case Stream(items) =>
        RenderListIsUnread(items);
      case _ =>
        AtomIsUnread(t);
    }
    if |Meaning(t)| == 1 { UnreadOne(Meaning(t)[0]); }
  }

  lemma UnreadOne(v: Value)
    ensures UnreadAll([v]) == Unread(v)
  {
    assert [v][1..] == [];
  }

  lemma AtomIsUnread(t: Token)
    requires Writable(t) && (t.Simple? || t.BS8? || t.Uint? || t.Bytes?)
    ensures |Meaning(t)| == 1 && Render(t) == Unread(Meaning(t)[0])
  {
    if t.Bytes? { assert BytesAtom([]) == BytesAtom([0]); }
  }

  lemma {:induction false} RenderListIsUnread(ts: TokenList)
    requires WritableList(ts)
    ensures RenderList(ts) == UnreadAll(MeaningList(ts))
    decreases ts, 0
  {
    match ts {
      case Nil =>
      case Cons(last, rest) =>
        RenderListIsUnread(rest);
        RenderIsUnread(last);
        UnreadConcat(MeaningList(rest), Meaning(last));
    }
  }
}
