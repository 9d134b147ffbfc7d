/** Level 0 discovery: walking the feature descriptors a drive returns
    (opal/src/io.rs:28-172; TCG Storage Architecture Core Specification,
    section 3.3.6). */
module Discovery {
  import opened Streams
  import opened Tokens
  import Response

  const BUFFER_SIZE := 1024
  const HEADER_LEN := 48

  const LOCKING := 0x0002
  const ENTERPRISE := 0x0100
  const OPAL_V2 := 0x0203

  datatype ComIdInfo = ComIdInfo(baseComId: nat, numComIds: nat)

  datatype Info = Info(locking: Option<byte>, opalV2: Option<ComIdInfo>, enterprise: Option<ComIdInfo>)

  const NOTHING := Info(None, None, None)

  function U16(hi: byte, lo: byte): nat {
    hi as int * 256 + lo
  }

  /** `LockingFlags::from_bits`: None when an undefined bit is set. */
  function Flags(bits: byte): Option<byte> {
    if bits < 0x40 then Some(bits) else None
  }

  predicate IsLocked(flags: Option<byte>) {
    flags.Some? && flags.value / 4 % 2 == 1
  }

  // ----- descriptors -----

  datatype Descriptor = Descriptor(code: nat, version: byte, data: seq<byte>)

  /** A descriptor that fits its length byte and has the fields its code promises. */
  predicate WellFormed(d: Descriptor) {
    && d.code < 0x1_0000 && |d.data| < 256
    && (d.code == LOCKING ==> |d.data| >= 1)
    && (d.code == ENTERPRISE || d.code == OPAL_V2 ==> |d.data| >= 4)
  }

  function Encode(d: Descriptor): (r: seq<byte>)
    requires WellFormed(d)
    ensures |r| == |d.data| + 4
  {
    [d.code / 256, d.code % 256, d.version, |d.data|] + d.data
  }

  function EncodeAll(ds: seq<Descriptor>): seq<byte>
    requires forall d | d in ds :: WellFormed(d)
  {
    if ds == [] then [] else Encode(ds[0]) + EncodeAll(ds[1..])
  }

  /** The last descriptor of a code. */
  function Last(ds: seq<Descriptor>, code: nat): (r: Option<Descriptor>)
    ensures r.Some? <==> exists d :: d in ds && d.code == code
    ensures r.Some? ==> r.value in ds && r.value.code == code
  {
    if ds == [] then None
    else if ds[|ds| - 1].code == code then Some(ds[|ds| - 1])
    else Last(ds[..|ds| - 1], code)
  }

  /** No descriptor of that code comes after it. */
  lemma {:induction false} LastIsLast(ds: seq<Descriptor>, code: nat, i: nat)
    requires i < |ds| && ds[i].code == code && forall j | i < j < |ds| :: ds[j].code != code
    ensures Last(ds, code) == Some(ds[i])
  {
    if i < |ds| - 1 { LastIsLast(ds[..|ds| - 1], code, i); }
  }

  function ComIds(d: Descriptor): ComIdInfo
    requires |d.data| >= 4
  {
    ComIdInfo(U16(d.data[0], d.data[1]), U16(d.data[2], d.data[3]))
  }

  /** What a descriptor list says, field by field. */
  function InfoOf(ds: seq<Descriptor>): Info
    requires forall d | d in ds :: WellFormed(d)
  {
    var locking, opal, enterprise := Last(ds, LOCKING), Last(ds, OPAL_V2), Last(ds, ENTERPRISE);
    assert forall d | d in {locking, opal, enterprise} && d.Some? :: WellFormed(d.value);
    Info(
      if locking.Some? then Flags(locking.value.data[0]) else None,
      if opal.Some? then Some(ComIds(opal.value)) else None,
      if enterprise.Some? then Some(ComIds(enterprise.value)) else None)
  }

  // ----- the walk -----

  function ComIdsAt(buffer: seq<byte>, at: nat): ComIdInfo
    requires at + 4 <= |buffer|
  {
    ComIdInfo(U16(buffer[at], buffer[at + 1]), U16(buffer[at + 2], buffer[at + 3]))
  }

  /** One round of the loop: the new info, and the next offset or None for `break`. */
  datatype Round = Round(info: Info, next: Option<nat>) | IndexPanic

  function Step(buffer: seq<byte>, offset: nat, info: Info): Round
    requires offset + 1 < |buffer|
  {
    var code := U16(buffer[offset], buffer[offset + 1]);
    var next := if offset + 3 < |buffer| then Some(offset + buffer[offset + 3] as int + 4) else None;
    if code == LOCKING then
      if offset + 4 < |buffer| then Round(info.(locking := Flags(buffer[offset + 4])), next) else Round(info, None)
    else if code == ENTERPRISE then
      if offset + 8 <= |buffer| then Round(info.(enterprise := Some(ComIdsAt(buffer, offset + 4))), next)
      else IndexPanic
    else if code == OPAL_V2 then
      if offset + 8 <= |buffer| then Round(info.(opalV2 := Some(ComIdsAt(buffer, offset + 4))), next) else IndexPanic
    else Round(info, next)
  }

  /** The whole walk; None is an index past the buffer. */
  function Walk(buffer: seq<byte>, offset: nat, info: Info): Option<Info>
    decreases |buffer| - offset
  {
    if offset + 1 >= |buffer| then Some(info)
    else
      match Step(buffer, offset, info)
      case IndexPanic => None
      case Round(info', None) => Some(info')
      case Round(info', Some(next)) => Walk(buffer, next, info')
  }

  datatype Result = Found(info: Info) | Io | IncompatibleVersion | Panicked

  /** `recv_info` on the buffer the drive filled, or None where it failed to. */
  method RecvInfo(received: Option<seq<byte>>) returns (r: Result)
    requires received.Some? ==> |received.value| == 1024
    ensures r.Io? <==> received.None?
    ensures received.Some? ==>
      r == if received.value[4..8] != [0, 0, 0, 1] then IncompatibleVersion
           else match Walk(received.value, 48, NOTHING)
             case None => Panicked
             case Some(info) => Found(info)
  {
    if received.None? {
      return Io;
    }
    var buffer := received.value;
    if buffer[4..8] != [0, 0, 0, 1] {
      return IncompatibleVersion;
    }
    var info := NOTHING;
    var offset := HEADER_LEN;
    while offset < |buffer| - 1
      invariant Walk(buffer, HEADER_LEN, NOTHING) == Walk(buffer, offset, info)
      decreases |buffer| - offset
    {
      var code := U16(buffer[offset], buffer[offset + 1]);
      if code == LOCKING {
        if offset + 4 >= |buffer| {
          return Found(info);
        }
        info := info.(locking := Flags(buffer[offset + 4]));
      } else if code == ENTERPRISE {
        if offset + 8 > |buffer| {
          return Panicked;
        }
        info := info.(enterprise := Some(ComIdsAt(buffer, offset + 4)));
      } else if code == OPAL_V2 {
        if offset + 8 > |buffer| {
          return Panicked;
        }
        info := info.(opalV2 := Some(ComIdsAt(buffer, offset + 4)));
      }
      if offset + 3 >= |buffer| {
        return Found(info);
      }
      offset := offset + buffer[offset + 3] as int + 4;
    }
    return Found(info);
  }

  // ----- the walk reads the descriptors -----

  lemma {:induction false} WalkZeros(buffer: seq<byte>, offset: nat, info: Info)
    requires forall i | offset <= i < |buffer| :: buffer[i] == 0
    ensures Walk(buffer, offset, info) == Some(info)
    decreases |buffer| - offset
  {
    if offset + 3 < |buffer| {
      WalkZeros(buffer, offset + 4, info);
    }
  }

  function Apply(info: Info, d: Descriptor): Info
    requires WellFormed(d)
  {
    if d.code == LOCKING then info.(locking := Flags(d.data[0]))
    else if d.code == ENTERPRISE then info.(enterprise := Some(ComIds(d)))
    else if d.code == OPAL_V2 then info.(opalV2 := Some(ComIds(d)))
    else info
  }

  lemma StepReads(buffer: seq<byte>, offset: nat, info: Info, d: Descriptor)
    requires WellFormed(d)
    requires offset + |d.data| + 4 <= |buffer| && buffer[offset..offset + |d.data| + 4] == Encode(d)
    ensures Step(buffer, offset, info) == Round(Apply(info, d), Some(offset + |d.data| + 4))
  {
    var e := Encode(d);
    assert forall i | 0 <= i < |e| :: buffer[offset + i] == e[i];
    assert e[0] == d.code / 256 && e[1] == d.code % 256 && e[3] == |d.data|;
    assert forall i | 0 <= i < |d.data| :: e[4 + i] == d.data[i];
    assert U16(buffer[offset], buffer[offset + 1]) == d.code;
  }

  lemma InfoOfOneMore(ds: seq<Descriptor>, d: Descriptor)
    requires forall x | x in ds + [d] :: WellFormed(x)
    ensures (forall x | x in ds :: WellFormed(x)) && WellFormed(d)
    ensures InfoOf(ds + [d]) == Apply(InfoOf(ds), d)
  {
    assert forall x | x in ds :: x in ds + [d];
    assert d in ds + [d];
    assert (ds + [d])[..|ds|] == ds;
  }

  /** From any point of a descriptor list on, the walk adds what is left of it. */
  lemma {:induction false} WalkReads(buffer: seq<byte>, offset: nat, done: seq<Descriptor>, left: seq<Descriptor>)
    requires forall d | d in done + left :: WellFormed(d)
    requires (forall d | d in done :: WellFormed(d)) && (forall d | d in left :: WellFormed(d))
    requires offset + |EncodeAll(left)| <= |buffer|
    requires buffer[offset..offset + |EncodeAll(left)|] == EncodeAll(left)
    requires forall i | offset + |EncodeAll(left)| <= i < |buffer| :: buffer[i] == 0
    ensures Walk(buffer, offset, InfoOf(done)) == Some(InfoOf(done + left))
    decreases |left|
  {
    hide *;
    if left == [] {
      WalkDone(buffer, offset, done);
    } else {
      var d, rest := left[0], left[1..];
      var n := |d.data| + 4;
      FirstSlice(buffer, offset, left);
      AllOf(done, left);
      Shift(done, left);
      StepReads(buffer, offset, InfoOf(done), d);
      WalkStep(buffer, offset, InfoOf(done), Apply(InfoOf(done), d), offset + n);
      InfoOfOneMore(done, d);
      WalkReads(buffer, offset + n, done + [d], rest);
    }
  }

  lemma WalkDone(buffer: seq<byte>, offset: nat, done: seq<Descriptor>)
    requires forall d | d in done :: WellFormed(d)
    requires forall i | offset + |EncodeAll([])| <= i < |buffer| :: buffer[i] == 0
    ensures done + [] == done && Walk(buffer, offset, InfoOf(done)) == Some(InfoOf(done))
  {
    WalkZeros(buffer, offset, InfoOf(done));
  }

  lemma Shift<T>(a: seq<T>, b: seq<T>)
    requires b != []
    ensures a + b == (a + [b[0]]) + b[1..]
  {
  }

  lemma WalkStep(buffer: seq<byte>, offset: nat, info: Info, info': Info, next: nat)
    requires offset + 1 < |buffer| && Step(buffer, offset, info) == Round(info', Some(next)) && next > offset
    ensures Walk(buffer, offset, info) == Walk(buffer, next, info')
  {
    hide Step;
  }

  /** The first of the descriptors left is where the walk stands, and the rest behind it. */
  lemma FirstSlice(buffer: seq<byte>, offset: nat, left: seq<Descriptor>)
    requires left != [] && forall d | d in left :: WellFormed(d)
    requires offset + |EncodeAll(left)| <= |buffer|
    requires buffer[offset..offset + |EncodeAll(left)|] == EncodeAll(left)
    ensures WellFormed(left[0]) && forall x | x in left[1..] :: WellFormed(x)
    ensures var n, tail := |left[0].data| + 4, EncodeAll(left[1..]);
      && n + |tail| == |EncodeAll(left)|
      && buffer[offset..offset + n] == Encode(left[0])
      && buffer[offset + n..offset + n + |tail|] == tail
  {
    EncodeFirst(left);
    hide *;
    Response.SliceSplit(buffer, offset, Encode(left[0]), EncodeAll(left[1..]));
  }

  lemma EncodeFirst(left: seq<Descriptor>)
    requires left != [] && forall d | d in left :: WellFormed(d)
    ensures WellFormed(left[0]) && forall x | x in left[1..] :: WellFormed(x)
    ensures EncodeAll(left) == Encode(left[0]) + EncodeAll(left[1..])
  {
    assert left[0] in left;
  }

  lemma AllOf(done: seq<Descriptor>, left: seq<Descriptor>)
    requires left != [] && forall d | d in done + left :: WellFormed(d)
    ensures forall x | x in done + [left[0]] :: WellFormed(x)
  {
    hide WellFormed;
    forall x | x in done + [left[0]] ensures WellFormed(x) {
      assert x in done + left;
    }
  }

  /** A buffer with a header, descriptors and zeros behind them. */
  ghost predicate Carries(buffer: seq<byte>, ds: seq<Descriptor>) {
    && |buffer| == 1024
    && buffer[4..8] == [0, 0, 0, 1]
    && (forall d | d in ds :: WellFormed(d))
    && 48 + |EncodeAll(ds)| <= |buffer|
    && buffer[48..48 + |EncodeAll(ds)|] == EncodeAll(ds)
    && forall i | 48 + |EncodeAll(ds)| <= i < |buffer| :: buffer[i] == 0
  }

  /** Discovery finds, for each code, exactly the last descriptor of that code; other
      descriptors and the trailing zeros change nothing. */
  lemma DiscoveryReads(buffer: seq<byte>, ds: seq<Descriptor>)
    requires Carries(buffer, ds)
    ensures Walk(buffer, 48, NOTHING) == Some(InfoOf(ds))
  {
    assert [] + ds == ds;
    WalkReads(buffer, HEADER_LEN, [], ds);
  }

  // ----- what the host makes of it -----

  datatype Connection = Connection(comId: nat, isEprise: bool, wasLocked: bool) | Unsupported

  /** `SecureDevice::new` after discovery. */
  function Connect(info: Info): Connection {
    var ids := if info.enterprise.Some? then info.enterprise else info.opalV2;
    if ids.None? then Unsupported
    else Connection(ids.value.baseComId, info.enterprise.Some?, IsLocked(info.locking))
  }

  /** The drive counts as locked exactly when its last locking descriptor has the LOCKED
      bit and no undefined bit; it is refused exactly when it shows neither an enterprise
      nor an Opal 2 descriptor; the enterprise ids take precedence. */
  lemma ConnectReads(buffer: seq<byte>, ds: seq<Descriptor>)
    requires Carries(buffer, ds)
    ensures Walk(buffer, 48, NOTHING).Some?
    ensures var c := Connect(Walk(buffer, 48, NOTHING).value);
      var locking, opal, enterprise := Last(ds, 0x0002), Last(ds, 0x0203), Last(ds, 0x0100);
      && (c.Unsupported? <==> forall d | d in ds :: d.code != 0x0100 && d.code != 0x0203)
      && (c.Connection? ==>
            && c.isEprise == enterprise.Some?
            && var ids := if enterprise.Some? then enterprise.value.data else opal.value.data;
            && |ids| >= 4 && c.comId == ids[0] as int * 0x100 + ids[1] as int
            && (c.wasLocked <==> locking.Some? && locking.value.data[0] < 0x40 && locking.value.data[0] / 4 % 2 == 1))
  {
    DiscoveryReads(buffer, ds);
  }
}
