/** Byte reads from a device that only reads whole blocks (src/io.rs:7-101). */
module BlockIo {
  import opened Streams

  const MAX_BLOCK_SIZE := 4096

  // ----- block arithmetic -----

  lemma MulBound(d: int, bs: int)
    requires bs > 0
    ensures d >= 1 ==> d * bs >= bs
    ensures d <= -1 ==> d * bs <= -bs
  {
  }

  lemma DivUnique(x: int, q: int, r: int, bs: int)
    requires 0 <= r < bs && x == q * bs + r
    ensures x / bs == q && x % bs == r
  {
    var d := q - x / bs;
    assert x == x / bs * bs + x % bs;
    assert d * bs == q * bs - x / bs * bs;
    MulBound(d, bs);
  }

  predicate Aligned(x: int, bs: int)
    requires bs > 0
  {
    x % bs == 0
  }

  /** The last block boundary at or before `x`. */
  function RoundDown(x: nat, bs: nat): (r: nat)
    requires bs > 0
    ensures r <= x < r + bs && Aligned(r, bs)
  {
    DivUnique(x / bs * bs, x / bs, 0, bs);
    x / bs * bs
  }

  /** The first block boundary at or after `x`. */
  function RoundUp(x: nat, bs: nat): (r: nat)
    requires bs > 0
    ensures x <= r < x + bs && Aligned(r, bs)
  {
    if Aligned(x, bs) then x else AlignedAdd(RoundDown(x, bs), bs, bs); RoundDown(x, bs) + bs
  }

  lemma AlignedAdd(x: int, y: int, bs: int)
    requires bs > 0 && Aligned(x, bs) && Aligned(y, bs)
    ensures Aligned(x + y, bs) && Aligned(x - y, bs)
    ensures (x + y) / bs == x / bs + y / bs
    ensures (x - y) / bs == x / bs - y / bs
  {
    var p, q := x / bs, y / bs;
    assert x == p * bs && y == q * bs;
    assert (p + q) * bs == x + y && (p - q) * bs == x - y;
    DivUnique(x + y, p + q, 0, bs);
    DivUnique(x - y, p - q, 0, bs);
    DivUnique(bs, 1, 0, bs);
  }

  /** Distinct boundaries are a block apart. */
  lemma AlignedGap(x: int, y: int, bs: int)
    requires bs > 0 && Aligned(x, bs) && Aligned(y, bs) && x < y
    ensures x + bs <= y && x / bs < y / bs
  {
    var p, q := x / bs, y / bs;
    assert (q - p) * bs == y - x;
    MulBound(q - p, bs);
  }

  lemma RestFits(base: nat, end: nat, size: nat, bs: nat)
    requires bs > 0 && Aligned(base, bs) && Aligned(size, bs) && base <= end <= size
    ensures base / bs + (end - base) / bs <= size / bs
  {
    var p, q, m := base / bs, (end - base) / bs, size / bs;
    assert p * bs + q * bs <= end;
    assert (p + q - m) * bs == p * bs + q * bs - m * bs;
    MulBound(p + q - m, bs);
  }

  function OffsetInBlock(x: nat, bs: nat): (r: nat)
    requires bs > 0
    ensures r < bs
  {
    x % bs
  }

  /** The block that holds byte `x`, or the number of blocks in `x` bytes. */
  function BlockOf(x: nat, bs: nat): nat
    requires bs > 0
  {
    x / bs
  }

  // ----- the specification -----

  /** A device: its block size, its bytes, and the blocks that fail to read. */
  datatype Disk = Disk(blockSize: nat, bytes: seq<byte>, bad: set<nat>)

  ghost predicate Readable(d: Disk, lba: nat, count: nat) {
    && (lba + count) * d.blockSize <= |d.bytes|
    && forall b | lba <= b < lba + count :: b !in d.bad
  }

  datatype BlockFields = BlockFields(disk: Disk, startLba: nat, size: u64, cursor: u64)

  /** What `new` establishes. */
  type BlockState = s: BlockFields | 0 < s.disk.blockSize && Aligned(s.size, s.disk.blockSize)
    witness BlockFields(Disk(1, [], {}), 0, 0, 0)

  /** The flat byte stream the reader presents; bytes past the device read as 0
      here but can never be delivered. */
  function Contents(s: BlockState): (r: seq<byte>)
    ensures |r| == s.size
  {
    Stretch(s.disk, s.startLba, s.size)
  }

  function Stretch(d: Disk, startLba: nat, size: nat): (r: seq<byte>)
    ensures |r| == size
  {
    var start := startLba * d.blockSize;
    seq(size, i requires 0 <= i < size => if start + i < |d.bytes| then d.bytes[start + i] else 0)
  }

  /** How many of `want` bytes one read at `cursor` delivers: all of them, or, when
      the end lies a whole block past the first boundary, up to the last boundary. */
  function ReadLen(bs: nat, cursor: nat, want: nat): (k: nat)
    requires bs > 0
    ensures k <= want
    ensures want - k < bs
    ensures want > 0 ==> k > 0
    ensures k < want ==> Aligned(cursor + k, bs)
    ensures k == want || (cursor + k) % bs == 0
    ensures cursor + want >= RoundUp(cursor, bs) + bs ==> (cursor + k) % bs == 0
  {
    var base := RoundUp(cursor, bs);
    if cursor + want < base + bs then want
    else
      var end := RoundDown(cursor + want, bs);
      assert base + bs <= end by {
        AlignedAdd(base, bs, bs);
        if end < base + bs { AlignedGap(end, base + bs, bs); }
      }
      end - cursor
  }

  /** What one request from a boundary on delivers of `rest` bytes. */
  function RestLen(bs: nat, rest: nat): (k: nat)
    requires bs > 0
    ensures k <= rest
  {
    if rest < bs then rest else RoundDown(rest, bs)
  }

  /** How many blocks that request fetches. */
  function RestBlocks(bs: nat, rest: nat): nat
    requires bs > 0
  {
    if rest < bs then 1 else BlockOf(rest, bs)
  }

  ghost function BlockRead(s: BlockState, n: nat): (BlockState, ReadResult) {
    var bs := s.disk.blockSize;
    if s.cursor >= s.size then (s, Data([]))
    else if bs > MAX_BLOCK_SIZE then (s, ReadPanic)
    else
      var want := Min(n, s.size - s.cursor);
      var base := RoundUp(s.cursor, bs);
      if base != s.cursor && !Readable(s.disk, s.startLba + BlockOf(s.cursor, bs), 1) then
        (s, ReadErr)
      else if base < s.cursor + want || base == s.cursor then
        if !Readable(s.disk, s.startLba + BlockOf(base, bs), RestBlocks(bs, s.cursor + want - base)) then
          (s.(cursor := base), ReadErr)
        else Delivered(s, ReadLen(bs, s.cursor, want))
      else Delivered(s, want)
  }

  ghost function Delivered(s: BlockState, k: nat): (BlockState, ReadResult)
    requires s.cursor + k <= s.size
  {
    (s.(cursor := s.cursor + k), Data(Contents(s)[s.cursor..s.cursor + k]))
  }

  function BlockSeek(s: BlockState, from: SeekFrom): (BlockState, SeekResult) {
    var t := match from
      case Start(offset) => offset
      case End(delta) => WrapI64(AsI64(s.size) + delta)
      case Current(delta) => WrapI64(AsI64(s.cursor) + delta);
    if t < 0 then (s, SeekErr) else (s.(cursor := t), At(t))
  }

  ghost function BlockReader(): Reader<BlockState> {
    Reader(BlockRead, BlockSeek, s => true, Contents, (s: BlockState) => s.cursor, s => false, TWO_63)
  }

  predicate Any(from: SeekFrom) { true }

  lemma BlockLawful()
    ensures Lawful(BlockReader(), Any)
  {
    var r := BlockReader();
    forall s, n: nat | r.inv(s) ensures ReadLaw(r, s, n) {
    }
    forall s, from | r.inv(s) && Any(from) && Reachable(r, s, from) ensures SeekLaw(r, s, from) {
      SeekExact(s, from);
    }
  }

  /** The seek of one flat stream. */
  function FlatSeek(len: nat, pos: nat, from: SeekFrom): SeekResult {
    var t := Target(len, pos, from);
    if t < 0 then SeekErr else At(t)
  }

  lemma SeekExact(s: BlockState, from: SeekFrom)
    ensures BlockSeek(s, from).1 == FlatSeek(s.size, s.cursor, from)
      <==> (from.Start? || Target(s.size, s.cursor, from) < TWO_63)
    ensures BlockSeek(s, from).1 == FlatSeek(s.size, s.cursor, from)
      ==> BlockSeek(s, from).0
            == if Target(s.size, s.cursor, from) < 0 then s else s.(cursor := Target(s.size, s.cursor, from))
  {
  }

  // ----- what a read achieves -----

  lemma NothingLeft(s: BlockState, n: nat)
    requires s.cursor >= s.size
    ensures BlockRead(s, n) == (s, Data([]))
  {
  }

  /** A read panics exactly on a device whose blocks are larger than 4096 bytes, once it
      has something to deliver; then it moves nothing. */
  lemma TooLarge(s: BlockState, n: nat)
    ensures BlockRead(s, n).1.ReadPanic? <==> s.cursor < s.size && s.disk.blockSize > 4096
    ensures BlockRead(s, n).1.ReadPanic? ==> BlockRead(s, n).0 == s
  {
  }

  lemma ReadData(s: BlockState, n: nat)
    requires s.cursor < s.size && BlockRead(s, n).1.Data?
    ensures BlockRead(s, n) == Delivered(s, ReadLen(s.disk.blockSize, s.cursor, Min(n, s.size - s.cursor)))
  {
  }

  /** A read makes progress whenever it can, and falls short of what was asked
      and is there by less than a block, and then only to end on a boundary. */
  lemma ReadProgress(s: BlockState, n: nat)
    requires BlockRead(s, n).1.Data?
    ensures var want := if s.cursor >= s.size then 0 else Min(n, s.size - s.cursor);
      var k := |BlockRead(s, n).1.bytes|;
      && k <= want < k + s.disk.blockSize
      && (want > 0 ==> k > 0)
      && (k < want ==> Aligned(s.cursor + k, s.disk.blockSize))
  {
    if s.cursor < s.size { ReadData(s, n); }
  }

  lemma LessThanABlock(c: nat, want: nat, bs: nat)
    requires bs > 0 && Aligned(c, bs) && want < bs
    ensures ReadLen(bs, c, want) == want
  {
  }

  /** Two reads fill any buffer that the rest of the stream can fill. */
  lemma TwoReadsFill(s: BlockState, n: nat)
    requires s.cursor + n <= s.size
    requires BlockRead(s, n).1.Data?
    ensures var (s1, r1) := BlockRead(s, n);
      && |r1.bytes| <= n
      && var (s2, r2) := BlockRead(s1, n - |r1.bytes|);
        r2.Data? ==>
          && r1.bytes + r2.bytes == Contents(s)[s.cursor..s.cursor + n]
          && s2 == s.(cursor := s.cursor + n)
  {
    hide BlockRead, ReadLen, Stretch, Aligned, RoundUp;
    if s.cursor == s.size {
      NothingLeft(s, n);
    } else {
      var k := ReadLen(s.disk.blockSize, s.cursor, n);
      ReadData(s, n);
      var s1 := Delivered(s, k).0;
      if s1.cursor == s.size {
        NothingLeft(s1, n - k);
      } else if BlockRead(s1, n - k).1.Data? {
        ReadData(s1, n - k);
        if k < n { LessThanABlock(s1.cursor, n - k, s.disk.blockSize); }
      }
    }
  }

  /** A failed read moves the cursor exactly when it had copied a partial first
      block before the rest failed, and then to the end of that block. */
  lemma FailedRead(s: BlockState, n: nat)
    requires BlockRead(s, n).1.ReadErr?
    ensures var bs := s.disk.blockSize;
      var headRead := !Aligned(s.cursor, bs) && Readable(s.disk, s.startLba + BlockOf(s.cursor, bs), 1);
      BlockRead(s, n).0 == if headRead then s.(cursor := RoundDown(s.cursor, bs) + bs) else s
  {
  }

  /** Both stages of a read stay inside the reader's blocks. */
  lemma BlocksInRange(c: nat, end: nat, size: nat, bs: nat)
    requires bs > 0 && Aligned(size, bs) && c < size && c <= end <= size
    ensures BlockOf(c, bs) + 1 <= BlockOf(size, bs)
    ensures var base := RoundUp(c, bs);
      base == c || base < end ==> BlockOf(base, bs) + RestBlocks(bs, end - base) <= BlockOf(size, bs)
  {
    var base := RoundUp(c, bs);
    DivUnique(RoundDown(c, bs), c / bs, 0, bs);
    AlignedGap(RoundDown(c, bs), size, bs);
    if base == c || base < end {
      AlignedGap(base, size, bs);
      RestFits(base, end, size, bs);
    }
  }

  lemma RestIsReadLen(c: nat, want: nat, bs: nat)
    requires bs > 0 && c + want >= RoundUp(c, bs)
    ensures RoundUp(c, bs) + RestLen(bs, c + want - RoundUp(c, bs)) == c + ReadLen(bs, c, want)
  {
    var base, end := RoundUp(c, bs), c + want;
    var q := (end - base) / bs;
    assert base == BlockOf(base, bs) * bs;
    assert (base / bs + q) * bs == base + q * bs;
    DivUnique(end, BlockOf(base, bs) + q, (end - base) % bs, bs);
  }

  /** The device has no bad block and blocks of at most 4096 bytes, and holds the reader's whole range. */
  predicate Sound(s: BlockState) {
    s.disk.blockSize <= 4096 && s.disk.bad == {} && s.startLba * s.disk.blockSize + s.size <= |s.disk.bytes|
  }

  lemma SoundReadable(s: BlockState, block: nat, count: nat)
    requires Sound(s) && block + count <= BlockOf(s.size, s.disk.blockSize)
    ensures Readable(s.disk, s.startLba + block, count)
  {
    var bs := s.disk.blockSize;
    var left := BlockOf(s.size, bs) - (block + count);
    assert BlockOf(s.size, bs) * bs == s.size;
    assert (s.startLba + block + count) * bs + left * bs == s.startLba * bs + s.size;
    assert left * bs >= 0;
  }

  /** On a sound device every read delivers. */
  lemma SoundRead(s: BlockState, n: nat)
    requires Sound(s)
    ensures BlockRead(s, n).1.Data? && Sound(BlockRead(s, n).0)
  {
    var bs := s.disk.blockSize;
    if s.cursor < s.size {
      var end := s.cursor + Min(n, s.size - s.cursor);
      var base := RoundUp(s.cursor, bs);
      BlocksInRange(s.cursor, end, s.size, bs);
      SoundReadable(s, BlockOf(s.cursor, bs), 1);
      hide Sound, Readable, BlockOf, RestBlocks, Aligned, Stretch;
      if base == s.cursor || base < end {
        SoundReadable(s, BlockOf(base, bs), RestBlocks(bs, end - base));
      }
      SoundKept(s, BlockRead(s, n).0);
    }
  }

  lemma SoundKept(s: BlockState, s': BlockState)
    requires Sound(s) && s'.disk == s.disk && s'.startLba == s.startLba && s'.size == s.size
    ensures Sound(s')
  {
  }

  /** On a device without bad blocks, of at most 4096 bytes each, that holds the reader's
      whole range, every read delivers. */
  lemma BlockDelivers(s: BlockState, n: nat)
    requires s.disk.blockSize <= 4096 && s.disk.bad == {}
    requires s.startLba * s.disk.blockSize + s.size <= |s.disk.bytes|
    ensures BlockRead(s, n).1.Data?
    ensures BlockRead(s, n).0.disk == s.disk
  {
    SoundRead(s, n);
  }

  lemma BlockReliable()
    ensures Reliable(BlockReader(), Any, Sound)
  {
    var r := BlockReader();
    forall s, n: nat | r.inv(s) && Sound(s) ensures ReadDelivers(r, s, n, Sound) {
      SoundRead(s, n);
    }
  }

  // ----- the implementation -----

  lemma RangeAligned(startLba: nat, endLba: nat, bs: nat)
    requires bs > 0
    ensures Aligned((endLba + 1) * bs - startLba * bs, bs)
  {
    var d := endLba + 1 - startLba;
    assert (endLba + 1) * bs - startLba * bs == d * bs;
    DivUnique(d * bs, d, 0, bs);
  }

  function ByteOffset(lba: nat, bs: nat): nat {
    lba * bs
  }

  lemma StretchAt(d: Disk, startLba: nat, size: nat, c: nat, n: nat)
    requires d.blockSize > 0
    requires ByteOffset(startLba + BlockOf(c, d.blockSize), d.blockSize) + n <= |d.bytes|
    ensures forall j | RoundDown(c, d.blockSize) <= j < size && j < RoundDown(c, d.blockSize) + n ::
      Stretch(d, startLba, size)[j]
        == d.bytes[ByteOffset(startLba + BlockOf(c, d.blockSize), d.blockSize) + (j - RoundDown(c, d.blockSize))]
  {
    var q := BlockOf(c, d.blockSize);
    assert (startLba + q) * d.blockSize == startLba * d.blockSize + q * d.blockSize;
  }

  datatype IoRead = Ok(count: nat) | Err | Panic

  /** How a read into the first `len` places of a buffer answers for `spec`: the
      bytes arrive at the front and everything behind them is left alone. */
  ghost predicate ReadMatches(r: IoRead, spec: ReadResult, len: nat, before: seq<byte>, after: seq<byte>) {
    match spec
    case Data(bytes) => r == Ok(|bytes|) && |bytes| <= len <= |before| && after == bytes + before[|bytes|..]
    case ReadErr => r == Err && len <= |before| == |after| && after[len..] == before[len..]
    case ReadPanic => r == Panic
  }

  /** The UEFI block device; which blocks fail may differ from call to call. */
  class BlockDevice {
    const blockSize: nat
    const bytes: seq<byte>
    var bad: set<nat>

    constructor (blockSize: nat, bytes: seq<byte>)
      ensures this.blockSize == blockSize && this.bytes == bytes
      ensures bad == {}
    {
      this.blockSize, this.bytes, bad := blockSize, bytes, {};
    }

    ghost function Snapshot(): Disk
      reads this
    {
      Disk(blockSize, bytes, bad)
    }

    method ReadBlocks(lba: nat, buffer: array<byte>, lo: nat, hi: nat) returns (ok: bool)
      requires 0 < blockSize && lo <= hi <= buffer.Length && Aligned(hi - lo, blockSize)
      modifies buffer
      ensures ok == Readable(Snapshot(), lba, BlockOf(hi - lo, blockSize))
      ensures ok ==> ByteOffset(lba, blockSize) + (hi - lo) <= |bytes|
      ensures ok ==> forall i | lo <= i < hi :: buffer[i] == bytes[ByteOffset(lba, blockSize) + (i - lo)]
      ensures forall i | 0 <= i < buffer.Length && !(lo <= i < hi) :: buffer[i] == old(buffer[i])
    {
      var count := BlockOf(hi - lo, blockSize);
      assert (lba + count) * blockSize == lba * blockSize + (hi - lo);
      ok := (lba + count) * blockSize <= |bytes| && forall b | lba <= b < lba + count :: b !in bad;
      if ok {
        forall i | lo <= i < hi {
          buffer[i] := bytes[lba * blockSize + (i - lo)];
        }
      }
    }
  }

  class BlockIoReader {
    const inner: BlockDevice
    const startLba: nat
    const size: u64
    const blockSize: nat
    var cursor: u64

    ghost predicate Valid() {
      && blockSize == inner.blockSize
      && 0 < blockSize
      && Aligned(size, blockSize)
    }

    ghost function State(): BlockState
      requires Valid()
      reads this, inner
    {
      BlockFields(inner.Snapshot(), startLba, size, cursor)
    }

    constructor (inner: BlockDevice, startLba: nat, endLba: nat)
      requires 0 < inner.blockSize
      requires startLba * inner.blockSize <= (endLba + 1) * inner.blockSize < TWO_64
      ensures Valid()
      ensures State() == BlockFields(inner.Snapshot(), startLba,
                                 (endLba + 1) * inner.blockSize - startLba * inner.blockSize, 0)
      ensures this.inner == inner
    {
      var bs := inner.blockSize;
      var start := startLba * bs;
      var end := (endLba + 1) * bs;
      RangeAligned(startLba, endLba, bs);
      this.inner, this.startLba, this.blockSize := inner, startLba, bs;
      this.size, this.cursor := end - start, 0;
    }

    method ReadBlocks(buffer: array<byte>, lo: nat, hi: nat) returns (ok: bool)
      requires Valid()
      requires lo <= hi <= buffer.Length && Aligned(hi - lo, blockSize)
      requires BlockOf(cursor, blockSize) + BlockOf(hi - lo, blockSize) <= BlockOf(size, blockSize)
      modifies buffer
      ensures ok == Readable(inner.Snapshot(), startLba + BlockOf(cursor, blockSize), BlockOf(hi - lo, blockSize))
      ensures ok ==> forall i | lo <= i < hi && RoundDown(cursor, blockSize) + (i - lo) < size ::
        buffer[i] == Stretch(inner.Snapshot(), startLba, size)[RoundDown(cursor, blockSize) + (i - lo)]
      ensures forall i | 0 <= i < buffer.Length && !(lo <= i < hi) :: buffer[i] == old(buffer[i])
    {
      hide OffsetInBlock, BlockOf, RoundDown, Aligned, Stretch, Readable;
      var lba := startLba + BlockOf(cursor, blockSize);
      ok := inner.ReadBlocks(lba, buffer, lo, hi);
      if ok {
        ghost var down := RoundDown(cursor, blockSize);
        StretchAt(inner.Snapshot(), startLba, size, cursor, hi - lo);
        forall i | lo <= i < hi && down + (i - lo) < size
          ensures buffer[i] == Stretch(inner.Snapshot(), startLba, size)[down + (i - lo)]
        {
          var j := down + (i - lo);
          assert Stretch(inner.Snapshot(), startLba, size)[j]
              == inner.bytes[ByteOffset(lba, blockSize) + (j - down)];
        }
      }
    }

    method Seek(from: SeekFrom) returns (r: SeekResult)
      requires Valid()
      modifies `cursor
      ensures (State(), r) == BlockSeek(old(State()), from)
    {
      var target := match from
        case Start(offset) => offset
        case End(delta) => WrapI64(AsI64(size) + delta)
        case Current(delta) => WrapI64(AsI64(cursor) + delta);
      if target < 0 {
        return SeekErr;
      }
      cursor := target;
      return At(cursor);
    }

    /** The first stage of a read ends at the next boundary. */
    lemma HeadStage(c: nat, bs: nat)
      requires bs > 0
      ensures OffsetInBlock(c, bs) == 0 <==> RoundUp(c, bs) == c
      ensures RoundDown(c, bs) == c - OffsetInBlock(c, bs)
      ensures OffsetInBlock(c, bs) != 0 ==> RoundUp(c, bs) == c - OffsetInBlock(c, bs) + bs
      ensures RoundDown(RoundUp(c, bs), bs) == RoundUp(c, bs)
      ensures Aligned(bs, bs) && BlockOf(bs, bs) == 1
    {
      DivUnique(bs, 1, 0, bs);
      var up := RoundUp(c, bs);
      assert up == up / bs * bs;
    }

    /** The specification, case by case as the stages below run into it. */
    lemma HeadFails(s: BlockState, n: nat)
      requires s.cursor < s.size && s.disk.blockSize <= MAX_BLOCK_SIZE
      requires RoundUp(s.cursor, s.disk.blockSize) != s.cursor
      requires !Readable(s.disk, s.startLba + BlockOf(s.cursor, s.disk.blockSize), 1)
      ensures BlockRead(s, n) == (s, ReadErr)
    {
    }

    lemma HeadSuffices(s: BlockState, n: nat)
      requires s.cursor < s.size && s.disk.blockSize <= MAX_BLOCK_SIZE
      requires RoundUp(s.cursor, s.disk.blockSize) != s.cursor
      requires s.cursor + Min(n, s.size - s.cursor) <= RoundUp(s.cursor, s.disk.blockSize)
      requires Readable(s.disk, s.startLba + BlockOf(s.cursor, s.disk.blockSize), 1)
      ensures BlockRead(s, n) == Delivered(s, Min(n, s.size - s.cursor))
    {
    }

    lemma RestDecides(s: BlockState, n: nat)
      requires s.cursor < s.size && s.disk.blockSize <= MAX_BLOCK_SIZE
      requires var base := RoundUp(s.cursor, s.disk.blockSize);
        base == s.cursor ||
        (base < s.cursor + Min(n, s.size - s.cursor)
         && Readable(s.disk, s.startLba + BlockOf(s.cursor, s.disk.blockSize), 1))
      ensures var bs := s.disk.blockSize;
        var base := RoundUp(s.cursor, bs);
        var rest := s.cursor + Min(n, s.size - s.cursor) - base;
        var lba, count := s.startLba + BlockOf(base, bs), RestBlocks(bs, rest);
        && base + RestLen(bs, rest) <= s.size
        && BlockRead(s, n) ==
             if Readable(s.disk, lba, count) then Delivered(s, base - s.cursor + RestLen(bs, rest))
             else (s.(cursor := base), ReadErr)
    {
      hide OffsetInBlock, BlockOf, RoundUp, Aligned, RestLen, RestBlocks, ReadLen, Stretch, Readable;
      RestIsReadLen(s.cursor, Min(n, s.size - s.cursor), s.disk.blockSize);
    }

    lemma DataMatches(before: seq<byte>, after: seq<byte>, stream: seq<byte>, c: nat, k: nat, len: nat)
      requires k <= len <= |before| == |after| && c + k <= |stream|
      requires forall i | 0 <= i < k :: after[i] == stream[c + i]
      requires forall i | k <= i < |after| :: after[i] == before[i]
      ensures ReadMatches(Ok(k), Data(stream[c..c + k]), len, before, after)
    {
    }

    lemma ErrMatches(before: seq<byte>, after: seq<byte>, len: nat)
      requires len <= |before| == |after|
      requires forall i | len <= i < |after| :: after[i] == before[i]
      ensures ReadMatches(Err, ReadErr, len, before, after)
    {
    }

    lemma PanicMatches(before: seq<byte>, len: nat)
      ensures ReadMatches(Panic, ReadPanic, len, before, before)
    {
    }

    method Read(dst: array<byte>, len: nat) returns (r: IoRead)
      requires Valid() && len <= dst.Length
      modifies `cursor, dst
      ensures State() == BlockRead(old(State()), len).0
      ensures ReadMatches(r, BlockRead(old(State()), len).1, len, old(dst[..]), dst[..])
    {
      hide OffsetInBlock, BlockOf, RoundUp, RoundDown, Aligned, RestLen, RestBlocks, ReadLen, Stretch, Readable;
      hide ReadMatches, BlockRead, WrapI64, AsI64;
      ghost var s, before := State(), dst[..];
      ghost var stream := Stretch(s.disk, startLba, size);
      if cursor >= size {
        NothingLeft(s, len);
        DataMatches(before, dst[..], stream, 0, 0, len);
        return Ok(0);
      }
      if blockSize > MAX_BLOCK_SIZE {
        assert ReadMatches(Panic, BlockRead(s, len).1, len, before, before) && BlockRead(s, len).0 == s by {
          TooLarge(s, len);
          PanicMatches(before, len);
        }
        return Panic;
      }
      HeadStage(cursor, blockSize);
      var want := if size - cursor < len then size - cursor else len;
      var aligned := OffsetInBlock(cursor, blockSize) == 0;

      var ok, read := ReadHead(dst, want);
      if !ok {
        assert ReadMatches(Err, BlockRead(s, len).1, len, before, dst[..]) && BlockRead(s, len).0 == s by {
          HeadFails(s, len);
          ErrMatches(before, dst[..], len);
        }
        return Err;
      }
      if !aligned && read == want {
        HeadSuffices(s, len);
        assert ReadMatches(Ok(want), BlockRead(s, len).1, len, before, dst[..]) by {
          DataMatches(before, dst[..], stream, s.cursor, want, len);
        }
        return Ok(want);
      }

      r := ReadRest(dst, read, want, s, before, len);
    }

    /** `read` after its first stage, which has copied `read` bytes up to a boundary. */
    method ReadRest(dst: array<byte>, read: nat, want: nat,
                    ghost s: BlockState, ghost before: seq<byte>, ghost len: nat) returns (r: IoRead)
      requires Valid() && len <= |before| == dst.Length && s.cursor < s.size && s.disk.blockSize <= MAX_BLOCK_SIZE
      requires want == Min(len, s.size - s.cursor) && s.cursor + read == RoundUp(s.cursor, s.disk.blockSize)
      requires read == 0 || (read < want && Readable(s.disk, s.startLba + BlockOf(s.cursor, s.disk.blockSize), 1))
      requires State() == s.(cursor := s.cursor + read)
      requires forall i | 0 <= i < read :: dst[i] == Stretch(s.disk, s.startLba, s.size)[s.cursor + i]
      requires forall i | read <= i < dst.Length :: dst[i] == before[i]
      modifies `cursor, dst
      ensures State() == BlockRead(s, len).0
      ensures ReadMatches(r, BlockRead(s, len).1, len, before, dst[..])
    {
      hide OffsetInBlock, BlockOf, RoundUp, RoundDown, Aligned, RestLen, RestBlocks, ReadLen, Stretch, Readable;
      hide ReadMatches, BlockRead, WrapI64, AsI64;
      ghost var stream := Stretch(s.disk, startLba, size);
      r := ReadAligned(dst, read, want);
      ghost var out := if r.Ok? then Data(stream[s.cursor..s.cursor + r.count]) else ReadErr;
      assert ReadMatches(r, out, len, before, dst[..]) by {
        if r.Ok? {
          DataMatches(before, dst[..], stream, s.cursor, r.count, len);
        } else {
          ErrMatches(before, dst[..], len);
        }
      }
      assert BlockRead(s, len) == (State(), out) by {
        RestDecides(s, len);
      }
    }

    /** Align the cursor: the first stage of `read`. */
    method ReadHead(dst: array<byte>, want: nat) returns (ok: bool, read: nat)
      requires Valid() && want <= dst.Length
      requires cursor + want <= size && cursor < size
      modifies `cursor, dst
      ensures var base := RoundUp(old(cursor), blockSize);
        && ok == (base == old(cursor) || Readable(inner.Snapshot(), startLba + BlockOf(old(cursor), blockSize), 1))
        && read == (if ok then Min(want, base - old(cursor)) else 0)
        && cursor == old(cursor) + read
        && (forall i | 0 <= i < read :: dst[i] == Stretch(inner.Snapshot(), startLba, size)[old(cursor) + i])
        && (forall i | read <= i < dst.Length :: dst[i] == old(dst[i]))
    {
      hide OffsetInBlock, BlockOf, RoundUp, RoundDown, Aligned, Stretch, Readable;
      HeadStage(cursor, blockSize);
      BlocksInRange(cursor, cursor, size, blockSize);
      var offset := OffsetInBlock(cursor, blockSize);
      if offset == 0 {
        return true, 0;
      }
      var block := new byte[blockSize];
      ok := ReadBlocks(block, 0, blockSize);
      if !ok {
        return false, 0;
      }
      var head := blockSize - offset;
      read := if want <= head then want else head;
      forall i | 0 <= i < read {
        dst[i] := block[offset + i];
      }
      cursor := cursor + read;
    }

    lemma RestStage(c: nat, rest: nat, bs: nat)
      requires bs > 0 && Aligned(c, bs)
      ensures RoundDown(c, bs) == c && Aligned(bs, bs) && BlockOf(bs, bs) == 1
      ensures BlockOf(RoundDown(rest, bs), bs) == BlockOf(rest, bs)
    {
      DivUnique(bs, 1, 0, bs);
      DivUnique(rest / bs * bs, rest / bs, 0, bs);
    }

    /** The part of `read` after the cursor has been aligned. */
    method ReadAligned(dst: array<byte>, read: nat, want: nat) returns (r: IoRead)
      requires Valid() && read <= want <= dst.Length
      requires Aligned(cursor, blockSize) && cursor + (want - read) <= size && cursor < size
      modifies `cursor, dst
      ensures var rest := want - read;
        var k := RestLen(blockSize, rest);
        if Readable(inner.Snapshot(), startLba + BlockOf(old(cursor), blockSize), RestBlocks(blockSize, rest)) then
          && r == Ok(read + k)
          && cursor == old(cursor) + k
          && (forall i | read <= i < read + k ::
                dst[i] == Stretch(inner.Snapshot(), startLba, size)[old(cursor) + (i - read)])
          && (forall i | 0 <= i < dst.Length && !(read <= i < read + k) :: dst[i] == old(dst[i]))
        else
          && r == Err
          && cursor == old(cursor)
          && (forall i | 0 <= i < dst.Length && !(read <= i < want) :: dst[i] == old(dst[i]))
    {
      hide OffsetInBlock, BlockOf, RoundDown, Aligned, Stretch, Readable;
      RestStage(cursor, want - read, blockSize);
      BlocksInRange(cursor, cursor + (want - read), size, blockSize);

      // less than one block left to fill
      if want - read < blockSize {
        var block := new byte[blockSize];
        var ok := ReadBlocks(block, 0, blockSize);
        if !ok {
          return Err;
        }
        forall i | read <= i < want {
          dst[i] := block[i - read];
        }
        cursor := cursor + (want - read);
        return Ok(want);
      }

      // whole blocks, straight into the destination
      var whole := RoundDown(want - read, blockSize);
      var ok := ReadBlocks(dst, read, read + whole);
      if !ok {
        return Err;
      }
      cursor := cursor + whole;
      return Ok(read + whole);
    }
  }
}
