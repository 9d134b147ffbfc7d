/** Cutting a received packet into tokens and reading numbers out of them
    (opal/src/command.rs:83-178). */
module Response {
  import opened Streams
  import opened Tokens

  const HEADER_SIZE := 56

  // ----- the walk -----

  /** The length of the token at `pos`; None where the code would index past the end.
      The bit tests of the source are comparisons: once the bits above are known to
      be set, `b & 0x40 == 0` says `b < 0xC0`, and so on. */
  function TokenLen(bytes: seq<byte>, pos: nat): (r: Option<nat>)
    ensures r.Some? ==> r.value > 0
  {
    if pos >= |bytes| then None
    else
      var b: int := bytes[pos];
      if b < 0x80 then Some(1)
      else if b < 0xC0 then Some(b % 16 + 1)
      else if b < 0xE0 then
        if pos + 1 >= |bytes| then None else Some(b % 8 * 256 + bytes[pos + 1] as int + 2)
      else if b < 0xF0 then
        if pos + 3 >= |bytes| then None
        else Some(bytes[pos + 1] as int * 0x1_0000 + bytes[pos + 2] as int * 0x100 + bytes[pos + 3] as int + 4)
      else Some(1)
  }

  /** The length of a token, header included, from its own bytes: one for a tiny atom or a
      control token, the low four bits of a short atom's header, eleven bits of a medium
      atom's, three bytes of a long atom's. */
  lemma TokenLengths(bytes: seq<byte>, pos: nat)
    requires pos < |bytes|
    ensures bytes[pos] < 0x80 || bytes[pos] >= 0xF0 ==> TokenLen(bytes, pos) == Some(1)
    ensures 0x80 <= bytes[pos] < 0xA0 ==> TokenLen(bytes, pos) == Some(1 + (bytes[pos] as int - 0x80) % 0x10)
    ensures 0xA0 <= bytes[pos] < 0xC0 ==> TokenLen(bytes, pos) == Some(1 + (bytes[pos] as int - 0xA0) % 0x10)
    ensures 0xC0 <= bytes[pos] < 0xE0 ==>
      TokenLen(bytes, pos) == if pos + 1 >= |bytes| then None
                              else Some(2 + (bytes[pos] as int - 0xC0) % 0x8 * 0x100 + bytes[pos + 1] as int)
    ensures 0xE0 <= bytes[pos] < 0xF0 ==>
      TokenLen(bytes, pos) == if pos + 3 >= |bytes| then None
                              else Some(4 + FromBigEndian(bytes[pos + 1..pos + 4]))
  {
    if 0xE0 <= bytes[pos] < 0xF0 && pos + 3 < |bytes| {
      ThreeBytes(bytes[pos + 1..pos + 4]);
    }
  }

  lemma ThreeBytes(s: seq<byte>)
    requires |s| == 3
    ensures FromBigEndian(s) == s[0] as int * 0x1_0000 + s[1] as int * 0x100 + s[2] as int
  {
    var two, one := s[..2], s[..1];
    assert s[..|s| - 1] == two && two[..|two| - 1] == one && one[..|one| - 1] == [];
    assert FromBigEndian(one) == s[0];
    assert FromBigEndian(two) == 0x100 * s[0] as int + s[1] as int;
  }

  /** The pieces from `pos` up to `end`, empty atoms included. */
  function Walk(bytes: seq<byte>, pos: nat, end: nat): Option<seq<seq<byte>>>
    decreases end - pos
  {
    if pos >= end then Some([])
    else
      match TokenLen(bytes, pos)
      case None => None
      case Some(n) =>
        if pos + n > |bytes| then None
        else
          match Walk(bytes, pos + n, end)
          case None => None
          case Some(rest) => Some([bytes[pos..pos + n]] + rest)
  }

  /** The tokens of the pieces: empty atoms are skipped. */
  function Kept(pieces: seq<seq<byte>>): seq<seq<byte>> {
    if pieces == [] then []
    else (if pieces[0] == [EMPTYATOM] then [] else [pieces[0]]) + Kept(pieces[1..])
  }

  function Parse(bytes: seq<byte>, pos: nat, end: nat): Option<seq<seq<byte>>> {
    match Walk(bytes, pos, end)
    case None => None
    case Some(pieces) => Some(Kept(pieces))
  }

  /** One round of the parser's loop. */
  lemma ParseStep(bytes: seq<byte>, pos: nat, end: nat)
    requires pos < end
    ensures var n := TokenLen(bytes, pos);
      if n.None? || pos + n.value > |bytes| then Parse(bytes, pos, end) == None
      else
        var token := bytes[pos..pos + n.value];
        var rest := Parse(bytes, pos + n.value, end);
        && (rest.None? ==> Parse(bytes, pos, end) == None)
        && (rest.Some? ==>
              Parse(bytes, pos, end) == Some((if token == [EMPTYATOM] then [] else [token]) + rest.value))
  {
    var n := TokenLen(bytes, pos);
    if n.Some? && pos + n.value <= |bytes| && Walk(bytes, pos + n.value, end).Some? {
      assert Walk(bytes, pos, end).value[1..] == Walk(bytes, pos + n.value, end).value;
    }
  }

  lemma Assoc<T>(a: seq<T>, b: seq<T>, c: seq<T>)
    ensures a + (b + c) == a + b + c
    ensures a + ([] + c) == a + c
  {
  }

  /** What is still to parse makes up, behind the tokens collected, what there was. */
  predicate Pending(all: Option<seq<seq<byte>>>, acc: seq<seq<byte>>, rest: Option<seq<seq<byte>>>) {
    all == if rest.None? then None else Some(acc + rest.value)
  }

  lemma PendingStart(all: Option<seq<seq<byte>>>)
    ensures Pending(all, [], all)
  {
    if all.Some? { assert [] + all.value == all.value; }
  }

  lemma PendingStep(bytes: seq<byte>, pos: nat, end: nat, all: Option<seq<seq<byte>>>, acc: seq<seq<byte>>)
    requires pos < end && Pending(all, acc, Parse(bytes, pos, end))
    ensures var n := TokenLen(bytes, pos);
      if n.None? || pos + n.value > |bytes| then all == None
      else
        var token := bytes[pos..pos + n.value];
        Pending(all, if token == [EMPTYATOM] then acc else acc + [token], Parse(bytes, pos + n.value, end))
  {
    ParseStep(bytes, pos, end);
    var n := TokenLen(bytes, pos);
    if n.Some? && pos + n.value <= |bytes| && Parse(bytes, pos + n.value, end).Some? {
      Assoc(acc, [bytes[pos..pos + n.value]], Parse(bytes, pos + n.value, end).value);
    }
    hide Parse, TokenLen;
  }

  /** `OpalResponse::parse`; None is the out-of-range index that panics. */
  method ParseResponse(bytes: seq<byte>, subpacketLen: nat) returns (tokens: Option<seq<seq<byte>>>)
    ensures tokens == Parse(bytes, 56, subpacketLen + 56)
  {
    assert HEADER_SIZE == 56;
    hide *;
    var acc: seq<seq<byte>> := [];
    var pos := HEADER_SIZE;
    var len := subpacketLen + HEADER_SIZE;
    ghost var all := Parse(bytes, pos, len);
    PendingStart(all);
    while pos < len
      invariant Pending(all, acc, Parse(bytes, pos, len))
      decreases len - pos
    {
      PendingStep(bytes, pos, len, all, acc);
      var n := TokenLen(bytes, pos);
      if n.None? || pos + n.value > |bytes| {
        return None;
      }
      var token := bytes[pos..pos + n.value];
      assert token[0] == bytes[pos];
      // skip empty atoms
      if n.value != 1 || bytes[pos] != EMPTYATOM {
        assert token != [EMPTYATOM];
        acc := acc + [token];
      }
      pos := pos + n.value;
    }
    PendingDone(bytes, pos, len, all, acc);
    return Some(acc);
  }

  lemma PendingDone(bytes: seq<byte>, pos: nat, end: nat, all: Option<seq<seq<byte>>>, acc: seq<seq<byte>>)
    requires pos >= end && Pending(all, acc, Parse(bytes, pos, end))
    ensures all == Some(acc)
  {
    assert acc + [] == acc;
  }

  /** The pieces, put together, are exactly the bytes walked; the walk stops at the
      first piece that reaches `end`. */
  lemma {:induction false} WalkCovers(bytes: seq<byte>, pos: nat, end: nat)
    requires Walk(bytes, pos, end).Some? && pos <= |bytes|
    ensures var pieces := Walk(bytes, pos, end).value;
      var stop := pos + |Flat(pieces)|;
      && stop <= |bytes|
      && Flat(pieces) == bytes[pos..stop]
      && (pos <= end ==> end <= stop)
      && (pieces != [] ==> stop - |pieces[|pieces| - 1]| < end)
    decreases end - pos
  {
    hide TokenLen;
    if pos < end {
      var n := TokenLen(bytes, pos).value;
      var pieces, rest := Walk(bytes, pos, end).value, Walk(bytes, pos + n, end).value;
      assert pieces[1..] == rest;
      WalkCovers(bytes, pos + n, end);
    }
  }

  /** Parsing past a token boundary continues the parse. */
  lemma {:induction false} WalkConcat(bytes: seq<byte>, pos: nat, mid: nat, end: nat)
    requires pos <= mid <= end
    requires Walk(bytes, pos, mid).Some? && pos + |Flat(Walk(bytes, pos, mid).value)| == mid
    ensures Walk(bytes, mid, end).None? ==> Walk(bytes, pos, end).None?
    ensures Walk(bytes, mid, end).Some? ==>
      Walk(bytes, pos, end) == Some(Walk(bytes, pos, mid).value + Walk(bytes, mid, end).value)
    decreases mid - pos
  {
    hide TokenLen;
    var head := Walk(bytes, pos, mid).value;
    if pos < mid {
      var n := TokenLen(bytes, pos).value;
      assert head[1..] == Walk(bytes, pos + n, mid).value;
      WalkFits(bytes, pos + n, mid);
      WalkConcat(bytes, pos + n, mid, end);
      if Walk(bytes, mid, end).Some? {
        assert head + Walk(bytes, mid, end).value == [head[0]] + (head[1..] + Walk(bytes, mid, end).value);
      }
    } else if Walk(bytes, mid, end).Some? {
      assert [] + Walk(bytes, mid, end).value == Walk(bytes, mid, end).value;
    }
  }

  /** A walk that begins past its end has nothing to deliver. */
  lemma WalkFits(bytes: seq<byte>, pos: nat, end: nat)
    ensures pos >= end ==> Walk(bytes, pos, end) == Some([])
  {
  }

  lemma {:induction false} KeptConcat(a: seq<seq<byte>>, b: seq<seq<byte>>)
    ensures Kept(a + b) == Kept(a) + Kept(b)
  {
    if a == [] {
      assert a + b == b;
    } else {
      assert (a + b)[1..] == a[1..] + b;
      KeptConcat(a[1..], b);
    }
  }

  /** The parse of a concatenation at a token boundary is the concatenation of the parses. */
  lemma ParseConcat(bytes: seq<byte>, pos: nat, mid: nat, end: nat)
    requires pos <= mid <= end
    requires Walk(bytes, pos, mid).Some? && pos + |Flat(Walk(bytes, pos, mid).value)| == mid
    ensures Parse(bytes, pos, mid).Some?
    ensures Parse(bytes, mid, end).None? <==> Parse(bytes, pos, end).None?
    ensures Parse(bytes, mid, end).Some? ==>
      Parse(bytes, pos, end) == Some(Parse(bytes, pos, mid).value + Parse(bytes, mid, end).value)
  {
    WalkConcat(bytes, pos, mid, end);
    if Walk(bytes, mid, end).Some? {
      KeptConcat(Walk(bytes, pos, mid).value, Walk(bytes, mid, end).value);
    }
  }

  // ----- printing and parsing undo each other -----

  /** A token whose first bytes give its length. */
  predicate SelfDelimiting(t: seq<byte>) {
    TokenLen(t, 0) == Some(|t|)
  }

  lemma LenAt(bytes: seq<byte>, pos: nat, t: seq<byte>)
    requires SelfDelimiting(t)
    requires pos + |t| <= |bytes| && bytes[pos..pos + |t|] == t
    ensures TokenLen(bytes, pos) == Some(|t|)
  {
    assert forall i | 0 <= i < |t| :: bytes[pos + i] == t[i];
  }

  lemma WalkStep(bytes: seq<byte>, pos: nat, end: nat, n: nat, rest: seq<seq<byte>>)
    requires pos < end && TokenLen(bytes, pos) == Some(n) && pos + n <= |bytes|
    requires Walk(bytes, pos + n, end) == Some(rest)
    ensures Walk(bytes, pos, end) == Some([bytes[pos..pos + n]] + rest)
  {
  }

  lemma SliceSplit(bytes: seq<byte>, pos: nat, a: seq<byte>, b: seq<byte>)
    requires pos + |a| + |b| <= |bytes| && bytes[pos..pos + |a| + |b|] == a + b
    ensures bytes[pos..pos + |a|] == a
    ensures bytes[pos + |a|..pos + |a| + |b|] == b
  {
    var s := bytes[pos..pos + |a| + |b|];
    assert bytes[pos..pos + |a|] == s[..|a|];
    assert bytes[pos + |a|..pos + |a| + |b|] == s[|a|..];
  }

  lemma {:induction false} WalkFlat(bytes: seq<byte>, pos: nat, ts: seq<seq<byte>>)
    requires forall t | t in ts :: SelfDelimiting(t)
    requires pos + |Flat(ts)| <= |bytes| && bytes[pos..pos + |Flat(ts)|] == Flat(ts)
    ensures Walk(bytes, pos, pos + |Flat(ts)|) == Some(ts)
    decreases |ts|
  {
    hide Walk, TokenLen;
    if ts == [] {
      WalkFits(bytes, pos, pos);
    } else {
      var t, rest := ts[0], ts[1..];
      assert t in ts && SelfDelimiting(t);
      assert Flat(ts) == t + Flat(rest);
      hide SelfDelimiting, Flat;
      SliceSplit(bytes, pos, t, Flat(rest));
      WalkFlat(bytes, pos + |t|, rest);
      LenAt(bytes, pos, t);
      WalkStep(bytes, pos, pos + |Flat(ts)|, |t|, rest);
      assert ts == [t] + rest;
    }
  }

  lemma {:induction false} KeptAll(ts: seq<seq<byte>>)
    requires [EMPTYATOM] !in ts
    ensures Kept(ts) == ts
  {
    if ts != [] {
      KeptAll(ts[1..]);
      assert ts == [ts[0]] + ts[1..];
    }
  }

  predicate Clean(ts: seq<seq<byte>>) {
    && (forall t | t in ts :: SelfDelimiting(t))
    && [EMPTYATOM] !in ts
  }

  lemma {:induction false} RenderClean(t: Token)
    requires Writable(t)
    ensures Clean(Render(t))
    decreases t, 1
  {
    match t {
      case Name(k, v) => RenderClean(k); RenderClean(v);
      case List(items) => RenderListClean(items);
      case Stream(items) => RenderListClean(items);
      case _ => AtomClean(t);
    }
  }

  lemma UintDelimits(v: u64)
    ensures SelfDelimiting(UintAtom(v)) && UintAtom(v) != [EMPTYATOM]
  {
    var t, w := UintAtom(v), Width(v);
    if v >= 0x40 {
      assert t[0] == 0x80 + w && |t| == w + 1;
    }
  }

  lemma BytesDelimit(s: seq<byte>)
    requires |s| < 2048
    ensures SelfDelimiting(BytesAtom(s)) && BytesAtom(s) != [EMPTYATOM]
  {
    var t := BytesAtom(s);
    if |s| >= 16 {
      assert t[0] == 0xD0 + |s| / 256 && t[1] == |s| % 256 && |t| == |s| + 2;
    } else if s != [] {
      assert t[0] == 0xA0 + |s| && |t| == |s| + 1;
    }
  }

  lemma AtomClean(t: Token)
    requires Writable(t) && (t.Simple? || t.BS8? || t.Uint? || t.Bytes?)
    ensures Clean(Render(t))
  {
    match t {
      case Uint(v) => UintDelimits(v);
      case Bytes(s) => BytesDelimit(s);
      case BS8(uid) => assert SelfDelimiting([0xA8] + uid);
      case Simple(b) => assert SelfDelimiting([b]);
    }
    hide SelfDelimiting, UintAtom, BytesAtom;
  }

  lemma {:induction false} RenderListClean(ts: TokenList)
    requires WritableList(ts)
    ensures Clean(RenderList(ts))
    decreases ts, 0
  {
    match ts {
      case Nil =>
      case Cons(last, rest) => RenderListClean(rest); RenderClean(last);
    }
  }

  /** Parsing what a tree printed gives its tokens in push order, wherever the print
      stands in a packet and whatever follows it. */
  lemma ParseRender(before: seq<byte>, ts: TokenList, after: seq<byte>)
    requires WritableList(ts)
    ensures var printed := Flat(RenderList(ts));
      Parse(before + printed + after, |before|, |before| + |printed|) == Some(RenderList(ts))
  {
    RenderListClean(ts);
    WalkFlat(before + Flat(RenderList(ts)) + after, |before|, RenderList(ts));
    KeptAll(RenderList(ts));
  }

  /** Two trees print the same bytes exactly when they mean the same: nothing else is
      lost than what `Meaning` identifies. */
  lemma PrintsAlike(a: TokenList, b: TokenList)
    requires WritableList(a) && WritableList(b)
    ensures Flat(RenderList(a)) == Flat(RenderList(b)) <==> MeaningList(a) == MeaningList(b)
  {
    if Flat(RenderList(a)) == Flat(RenderList(b)) {
      ParseRender([], a, []);
      ParseRender([], b, []);
      assert RenderList(a) == RenderList(b);
      MeaningRecovered(a);
      MeaningRecovered(b);
    } else {
      RenderListIsUnread(a);
      RenderListIsUnread(b);
    }
  }

  /** A simple token parses as itself exactly when it is a tiny atom, a short atom
      of length 0, or a control token other than the empty atom. */
  lemma SimpleTokenParses(b: byte)
    ensures Parse([b], 0, 1) == Some([[b]])
      <==> (b < 0x80 || (b < 0xC0 && b % 16 == 0) || 0xF0 <= b < 0xFF)
  {
    if TokenLen([b], 0) == Some(1) {
      assert [b][0..0 + 1] == [b];
      assert Walk([b], 0 + 1, 1) == Some([]);
      assert [[b]] + [] == [[b]];
      assert Walk([b], 0, 1) == Some([[b]]);
      assert [[b]][1..] == [];
      assert Kept([[b]]) == if b == EMPTYATOM then [] else [[b]];
    }
  }

  // ----- numbers -----

  const TWO_32 := 0x1_0000_0000

  datatype Number = Number(n: u64) | NumberPanic

  /** Bitwise or of two bytes. */
  function Or8(a: byte, b: byte): byte {
    ((a as bv8) | (b as bv8)) as int
  }

  /** `get_uint`: all bytes of a short atom, its header included, as one big-endian
      number. With 8 payload bytes the header is shifted by 64, which a release build
      takes as a shift by 0. */
  function UintOf(t: seq<byte>): Number
    requires t != []
  {
    if t[0] < 0x40 then Number(t[0])
    else if t[0] < 0x80 then NumberPanic
    else if t[0] < 0xC0 && t[0] / 16 % 2 == 0 then
      if |t| > 9 then NumberPanic
      else if |t| == 9 then OrLow(Short(t[1..]), t[0])
      else Number(Short(t))
    else NumberPanic
  }

  function Short(t: seq<byte>): u64
    requires |t| <= 8
  {
    BigEndianFits(t);
    FromBigEndian(t)
  }

  function OrLow(v: u64, b: byte): Number {
    Number(v - v % 256 + Or8(v % 256, b))
  }

  lemma BigEndianFits(s: seq<byte>)
    requires |s| <= 8
    ensures FromBigEndian(s) < TWO_64
  {
    BigEndianBound(s);
    PowValues();
    PowGrows(|s|, 8);
  }

  lemma {:induction false} PowGrows(a: nat, b: nat)
    requires a <= b
    ensures Pow256(a) <= Pow256(b)
  {
    if a < b { PowGrows(a, b - 1); }
  }

  lemma {:induction false} BigEndianCons(x: byte, s: seq<byte>)
    ensures FromBigEndian([x] + s) == x * Pow256(|s|) + FromBigEndian(s)
  {
    var t := [x] + s;
    if s == [] {
      assert t[..|t| - 1] == [];
    } else {
      assert t[..|t| - 1] == [x] + s[..|s| - 1];
      BigEndianCons(x, s[..|s| - 1]);
    }
  }

  /** Of which tokens a number can be read: a tiny unsigned atom, whose number is its byte,
      and a short atom without the sign bit, of up to nine bytes. Up to eight are taken as
      one number, header first. */
  lemma UintReadable(t: seq<byte>)
    requires t != []
    ensures UintOf(t).Number? <==>
      t[0] < 0x40 || ((0x80 <= t[0] < 0x90 || 0xA0 <= t[0] < 0xB0) && |t| <= 9)
    ensures t[0] < 0x40 ==> UintOf(t) == Number(t[0])
    ensures t[0] >= 0x80 && |t| <= 8 && UintOf(t).Number? ==> UintOf(t).n == FromBigEndian(t)
  {
  }

  method GetUint(token: seq<byte>) returns (r: Number)
    requires token != []
    ensures r == UintOf(token)
  {
    if token[0] < 0x80 {
      if token[0] < 0x40 {
        return Number(token[0] % 64);
      }
      return NumberPanic;
    }
    if token[0] >= 0xC0 || token[0] / 16 % 2 != 0 || |token| > 9 {
      return NumberPanic;
    }
    var whatever: nat := 0;
    var i := |token|;
    assert token[i..] == [];
    for b := 0 to |token|
      invariant i == |token| - b
      invariant whatever < TWO_64
      invariant b <= 8 ==> whatever == FromBigEndian(token[i..])
      invariant b == 9 ==> Number(whatever) == UintOf(token)
    {
      i := i - 1;
      if b < 8 {
        assert token[i..] == [token[i]] + token[i + 1..];
        BigEndianCons(token[i], token[i + 1..]);
        whatever := whatever + token[i] as int * Pow256(b);
        BigEndianFits(token[i..]);
      } else {
        BigEndianFits(token[1..]);
        whatever := OrLow(whatever, token[i]).n;
      }
    }
    assert token[0..] == token;
    return Number(whatever);
  }

  /** An unsigned short atom with `w` payload bytes. */
  function ShortAtom(v: nat, w: nat): seq<byte>
    requires w < 16
  {
    [0x80 + w] + BigEndian(v, w)
  }

  /** The header byte ends up in the result, above the payload. */
  lemma HeaderFolded(v: nat, w: nat)
    requires w <= 7 && v < Pow256(w)
    ensures UintOf(ShortAtom(v, w)).Number?
    ensures UintOf(ShortAtom(v, w)).n == v + (0x80 + w) * Pow256(w)
  {
    var t := ShortAtom(v, w);
    BigEndianRoundTrip(v, w);
    assert t[0] == 0x80 + w && |t| == w + 1;
    assert t[0] / 16 == 8;
    hide FromBigEndian, Pow256, BigEndian;
    BigEndianCons(0x80 + w, BigEndian(v, w));
  }

  /** With eight payload bytes the header lands on the lowest byte. */
  lemma HeaderOnLowByte(v: u64)
    requires v < Pow256(8)
    ensures UintOf(ShortAtom(v, 8)) == OrLow(v, 0x88)
  {
    BigEndianRoundTrip(v, 8);
    var t := ShortAtom(v, 8);
    assert t[0] == 0x88 && t[1..] == BigEndian(v, 8);
    hide FromBigEndian, Pow256, BigEndian;
  }

  /** The header does not show in the lower 32 bits: it is shifted above them, or all its
      bits are set in the lowest byte already. */
  predicate HeaderHidden(v: nat, w: nat) {
    4 <= w <= 7 || (w == 8 && Or8(v % 256, 0x88) == v % 256)
  }

  /** What the truncation to 32 bits leaves of a short atom of any width: more than eight
      payload bytes panic, and otherwise the value is right exactly when the header is
      hidden, so never with fewer than four. */
  lemma TruncationExact(v: nat, w: nat)
    requires w < 16 && v < Pow256(w)
    ensures UintOf(ShortAtom(v, w)).Number? <==> w <= 8
    ensures w <= 8 ==> (UintOf(ShortAtom(v, w)).n % TWO_32 == v % TWO_32 <==> HeaderHidden(v, w))
  {
    if w <= 7 {
      HeaderFolded(v, w);
      TruncationShort(v, w);
    } else if w == 8 {
      PowValues();
      HeaderOnLowByte(v);
      LowByte(v, Or8(v % 256, 0x88));
    } else {
      assert |ShortAtom(v, w)| == w + 1;
    }
  }

  lemma TruncationShort(v: nat, w: nat)
    requires w <= 7 && v < Pow256(w)
    ensures (v + (0x80 + w) * Pow256(w)) % TWO_32 == v % TWO_32 <==> w >= 4
  {
    var header := 0x80 + w;
    PowTable();
    if w >= 4 {
      var m := header * Pow256(w - 4);
      assert header * Pow256(w) == m * TWO_32;
      ModMultiple(v, m);
    } else {
      assert header * Pow256(w) + v < TWO_32;
    }
  }

  lemma LowByte(v: nat, low: byte)
    ensures (v - v % 256 + low) % TWO_32 == v % TWO_32 - v % 256 + low
  {
    var a, m := v / TWO_32, v % TWO_32;
    assert v == m + a * TWO_32;
    assert v % 256 == m % 256;
    var n := m - m % 256 + low;
    assert n < TWO_32;
    ModMultiple(n, a);
  }

  lemma ModMultiple(v: nat, m: nat)
    ensures (v + m * TWO_32) % TWO_32 == v % TWO_32
  {
  }

  lemma PowTable()
    ensures Pow256(0) == 1 && Pow256(1) == 0x100 && Pow256(2) == 0x1_0000 && Pow256(3) == 0x100_0000
    ensures Pow256(4) == TWO_32 && Pow256(5) == 0x100 * TWO_32
    ensures Pow256(6) == 0x1_0000 * TWO_32 && Pow256(7) == 0x100_0000 * TWO_32
  {
    PowValues();
    assert Pow256(3) == 0x100_0000 && Pow256(5) == 0x100 * TWO_32;
    assert Pow256(6) == 0x1_0000 * TWO_32;
  }

  /** So of the numbers the host's own writer prints, those come back that fit a tiny
      atom or need four bytes; skipping the header would bring back all of them. */
  lemma WrittenIdComesBack(v: u64)
    requires v < TWO_32
    ensures UintAtom(v) != [] && UintOf(UintAtom(v)).Number?
    ensures UintOf(UintAtom(v)).n % TWO_32 == v <==> v < 0x40 || v >= 0x1_0000
    ensures v >= 0x40 ==> FromBigEndian(UintAtom(v)[1..]) == v
  {
    PowValues();
    UintAtomShortest(v);
    if v >= 0x40 {
      var w := Width(v);
      assert UintAtom(v) == ShortAtom(v, w);
      assert HeaderHidden(v, w) <==> w == 4;
      hide UintOf, ShortAtom, Or8, UintAtom;
      TruncationExact(v, w);
    }
  }
}
