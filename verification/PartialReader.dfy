/** A window of `size` bytes from `start` on, over another reader
    (src/io.rs:103-150), and the stack the search builds out of all three. */
module Window {
  import opened Streams
  import opened BlockIo
  import opened SeekCache

  datatype Part<S> = Part(inner: S, start: u64, size: u64, cursor: nat, needReset: bool)

  /** The seek the window issues to its inner reader; None where an `unwrap` of
      the source fails. */
  function InnerSeek<S>(p: Part<S>, from: SeekFrom): Option<SeekFrom> {
    match from
    case Start(offset) => if p.start + offset < TWO_64 then Some(Start(p.start + offset)) else None
    case Current(delta) => Some(Current(delta))
    case End(delta) =>
      var target := AsI64((p.start + p.size) % TWO_64) + delta;
      if 0 <= target < TWO_63 then Some(Start(target)) else None
  }

  function PartSeek<S>(r: Reader<S>, p: Part<S>, from: SeekFrom): (Part<S>, SeekResult) {
    var p0 := p.(needReset := false);
    match InnerSeek(p, from)
    case None => (p0, SeekPanic)
    case Some(innerFrom) =>
      var (inner, out) := r.seek(p.inner, innerFrom);
      var p1 := p0.(inner := inner);
      if !out.At? then (p1, out)
      else if p.start > out.pos then (p1, SeekErr)
      else (p1.(cursor := out.pos - p.start), At(out.pos - p.start))
  }

  function PartRead<S>(r: Reader<S>, p: Part<S>, n: nat): (Part<S>, ReadResult) {
    if p.needReset then
      var (p0, out) := PartSeek(r, p, Start(0));
      match out
      case At(_) => PartReadHere(r, p0, n)
      case SeekErr => (p0, ReadErr)
      case SeekPanic => (p0, ReadPanic)
    else PartReadHere(r, p, n)
  }

  function PartReadHere<S>(r: Reader<S>, p: Part<S>, n: nat): (Part<S>, ReadResult) {
    if p.cursor >= p.size then (p, Data([]))
    else
      var (inner, out) := r.read(p.inner, Min(n, p.size - p.cursor));
      var p1 := p.(inner := inner);
      if out.Data? then (p1.(cursor := p.cursor + |out.bytes|), out) else (p1, out)
  }

  /** The inner reader stands `cursor` bytes behind `start`, once it has been placed. */
  predicate InStep<S>(r: Reader<S>, p: Part<S>) {
    && r.inv(p.inner)
    && (if p.needReset then p.cursor == 0 else !r.unset(p.inner) && r.position(p.inner) == p.start + p.cursor)
  }

  function PartReader<S>(r: Reader<S>, start: u64, size: u64): Reader<Part<S>> {
    Reader(
      (p: Part<S>, n: nat) => PartRead(r, p, n),
      (p: Part<S>, from: SeekFrom) => PartSeek(r, p, from),
      (p: Part<S>) => InStep(r, p) && p.start == start && p.size == size && start + size <= |r.contents(p.inner)|,
      (p: Part<S>) => if start + size <= |r.contents(p.inner)| then r.contents(p.inner)[start..start + size] else [],
      (p: Part<S>) => p.cursor,
      (p: Part<S>) => p.needReset,
      r.limit - start)
  }

  /** The seeks a window issues to its inner reader. */
  predicate NoEnd(from: SeekFrom) {
    !from.End?
  }

  /** A window over a lawful reader is a flat stream of exactly its bytes. */
  lemma PartLawful<S(!new)>(r: Reader<S>, start: u64, size: u64)
    requires Lawful(r, NoEnd) && start + size < r.limit <= TWO_63
    ensures Lawful(PartReader(r, start, size), Any)
  {
    var w := PartReader(r, start, size);
    forall p, from | w.inv(p) && Any(from) && Reachable(w, p, from) ensures SeekLaw(w, p, from) {
      PartSeekLawful(r, p, from);
    }
    forall p, n: nat | w.inv(p) ensures ReadLaw(w, p, n) {
      PartReadLawful(r, p, n);
    }
  }

  lemma PartReadLawful<S(!new)>(r: Reader<S>, p: Part<S>, n: nat)
    requires Lawful(r, NoEnd) && p.start + p.size < r.limit <= TWO_63
    requires PartReader(r, p.start, p.size).inv(p)
    ensures ReadLaw(PartReader(r, p.start, p.size), p, n)
  {
    if p.needReset {
      hide PartReadHere, FlatRead;
      assert Reachable(PartReader(r, p.start, p.size), p, Start(0));
      PartSeekLawful(r, p, Start(0));
      PlacedReadLawful(r, PartSeek(r, p, Start(0)).0, n);
    } else {
      PlacedReadLawful(r, p, n);
    }
  }

  lemma PlacedReadLawful<S(!new)>(r: Reader<S>, p: Part<S>, n: nat)
    requires Lawful(r, NoEnd)
    requires PartReader(r, p.start, p.size).inv(p) && !p.needReset
    ensures ReadLaw(PartReader(r, p.start, p.size), p, n)
  {
    if p.cursor < p.size {
      assert ReadLaw(r, p.inner, Min(n, p.size - p.cursor));
      var out := PartReadHere(r, p, n).1;
      if out.Data? {
        SliceOfSlice(r.contents(p.inner), p.start, p.size, p.cursor, |out.bytes|);
      }
    }
  }

  lemma SliceOfSlice<T>(s: seq<T>, start: nat, size: nat, at: nat, n: nat)
    requires start + size <= |s| && at + n <= size
    ensures s[start..start + size][at..at + n] == s[start + at..start + at + n]
  {
    var window := s[start..start + size];
    var left, right := window[at..at + n], s[start + at..start + at + n];
    forall i | 0 <= i < n ensures left[i] == right[i] {
      assert left[i] == window[at + i] == s[start + at + i];
    }
  }

  lemma PartSeekLawful<S(!new)>(r: Reader<S>, p: Part<S>, from: SeekFrom)
    requires Lawful(r, NoEnd) && p.start + p.size < r.limit <= TWO_63
    requires var w := PartReader(r, p.start, p.size); w.inv(p) && Reachable(w, p, from)
    ensures SeekLaw(PartReader(r, p.start, p.size), p, from)
  {
    var innerFrom := InnerSeek(p, from);
    if innerFrom.Some? {
      InnerSeekLaw(r, p.inner, innerFrom.value);
    }
    hide Lawful;
  }

  lemma InnerSeekLaw<S(!new)>(r: Reader<S>, s: S, from: SeekFrom)
    requires Lawful(r, NoEnd)
    ensures r.inv(s) && !from.End? && Reachable(r, s, from) ==> SeekLaw(r, s, from)
  {
  }

  /** A window over a reliable reader is reliable. */
  lemma PartReliable<S(!new)>(r: Reader<S>, start: u64, size: u64, ok: S -> bool, ok': Part<S> -> bool)
    requires Lawful(r, NoEnd) && Reliable(r, NoEnd, ok) && start + size < r.limit <= TWO_63
    requires forall p: Part<S> :: ok'(p) == ok(p.inner)
    ensures Reliable(PartReader(r, start, size), Any, ok')
  {
    var w := PartReader(r, start, size);
    forall p, from | w.inv(p) && ok'(p) && Any(from) && Reachable(w, p, from) ensures SeekKeeps(w, p, from, ok') {
      PartSeekKeeps(r, p, from, ok);
    }
    forall p, n: nat | w.inv(p) && ok'(p) ensures ReadDelivers(w, p, n, ok') {
      PartReadDelivers(r, p, n, ok);
    }
  }

  lemma PartSeekKeeps<S(!new)>(r: Reader<S>, p: Part<S>, from: SeekFrom, ok: S -> bool)
    requires Reliable(r, NoEnd, ok) && p.start + p.size < r.limit <= TWO_63 && ok(p.inner)
    requires var w := PartReader(r, p.start, p.size); w.inv(p) && Reachable(w, p, from)
    ensures ok(PartSeek(r, p, from).0.inner)
  {
    var innerFrom := InnerSeek(p, from);
    if innerFrom.Some? {
      assert Reachable(r, p.inner, innerFrom.value);
      assert SeekKeeps(r, p.inner, innerFrom.value, ok);
    }
  }

  lemma PartReadDelivers<S(!new)>(r: Reader<S>, p: Part<S>, n: nat, ok: S -> bool)
    requires Lawful(r, NoEnd) && Reliable(r, NoEnd, ok) && p.start + p.size < r.limit <= TWO_63
    requires PartReader(r, p.start, p.size).inv(p) && ok(p.inner)
    ensures PartRead(r, p, n).1.Data? && ok(PartRead(r, p, n).0.inner)
  {
    if p.needReset {
      hide PartReadHere;
      assert Reachable(PartReader(r, p.start, p.size), p, Start(0));
      PartSeekLawful(r, p, Start(0));
      PartSeekKeeps(r, p, Start(0), ok);
      PlacedReadDelivers(r, PartSeek(r, p, Start(0)).0, n, ok);
    } else {
      PlacedReadDelivers(r, p, n, ok);
    }
  }

  lemma PlacedReadDelivers<S(!new)>(r: Reader<S>, p: Part<S>, n: nat, ok: S -> bool)
    requires Reliable(r, NoEnd, ok) && r.inv(p.inner) && ok(p.inner)
    ensures PartReadHere(r, p, n).1.Data? && ok(PartReadHere(r, p, n).0.inner)
  {
    if p.cursor < p.size {
      assert ReadDelivers(r, p.inner, Min(n, p.size - p.cursor), ok);
    }
  }

  // ----- any window, even one that reaches past its inner reader -----

  /** The bytes of a read come from inside the window. */
  ghost predicate FromWindow<S>(r: Reader<S>, p: Part<S>, out: seq<byte>) {
    out != [] ==>
      && p.cursor + |out| <= p.size
      && p.start + p.cursor + |out| <= |r.contents(p.inner)|
      && out == r.contents(p.inner)[p.start + p.cursor..p.start + p.cursor + |out|]
  }

  lemma WindowStep<S(!new)>(r: Reader<S>, p: Part<S>, op: Op)
    requires Lawful(r, NoEnd) && InStep(r, p) && p.start < r.limit
    requires match op
      case ReadOp(_) => true
      case SeekOp(from) =>
        && (p.needReset ==> !from.Current?)
        && (InnerSeek(p, from).Some? ==>
          Target(|r.contents(p.inner)|, r.position(p.inner), InnerSeek(p, from).value) < r.limit)
    ensures match op
      case ReadOp(n) =>
        var (p', out) := PartRead(r, p, n);
        out.Data? ==> InStep(r, p') && !p'.needReset && FromWindow(r, p, out.bytes)
      case SeekOp(from) =>
        var (p', out) := PartSeek(r, p, from);
        out.At? ==> InStep(r, p') && !p'.needReset && p'.cursor == out.pos
  {
    match op
    case ReadOp(n) =>
      assert p.needReset ==> SeekLaw(r, p.inner, Start(p.start)) by {
        assert Reachable(r, p.inner, Start(p.start));
      }
      var here := if p.needReset then PartSeek(r, p, Start(0)).0 else p;
      if here.cursor < here.size && (p.needReset ==> PartSeek(r, p, Start(0)).1.At?) {
        assert ReadLaw(r, here.inner, Min(n, here.size - here.cursor));
      }
    case SeekOp(from) =>
      if InnerSeek(p, from).Some? {
        assert Reachable(r, p.inner, InnerSeek(p, from).value);
        assert SeekLaw(r, p.inner, InnerSeek(p, from).value);
      }
  }

  /** A relative seek before anything has placed the window starts from wherever the
      inner reader happens to stand; it answers as from 0 exactly when that is the
      window's start, or, for a seek backwards, close enough to it to be refused. */
  lemma CurrentBeforeReset<S(!new)>(r: Reader<S>, p: Part<S>, delta: i64)
    requires Lawful(r, Any) && r.inv(p.inner) && !r.unset(p.inner)
    requires p.needReset && p.cursor == 0
    requires r.position(p.inner) + delta < r.limit
    ensures var out := PartSeek(r, p, Current(delta)).1;
      (if delta >= 0 then out == At(delta) else !out.At?)
      <==> if delta >= 0 then r.position(p.inner) == p.start else r.position(p.inner) + delta < p.start
  {
    assert SeekLaw(r, p.inner, Current(delta));
  }

  /** A refused seek leaves the window in step exactly when the inner reader refused
      it too; a target in front of the window has already moved the inner reader. */
  lemma RefusedSeek<S(!new)>(r: Reader<S>, p: Part<S>, from: SeekFrom)
    requires Lawful(r, NoEnd) && InStep(r, p) && !p.needReset
    requires InnerSeek(p, from).Some?
    requires Reachable(r, p.inner, InnerSeek(p, from).value)
    requires var (inner, out) := r.seek(p.inner, InnerSeek(p, from).value);
      !out.At? ==> r.inv(inner) && !r.unset(inner) && r.position(inner) == r.position(p.inner)
    requires PartSeek(r, p, from).1.SeekErr?
    ensures InStep(r, PartSeek(r, p, from).0)
      <==> Target(|r.contents(p.inner)|, r.position(p.inner), InnerSeek(p, from).value) < 0
  {
    assert SeekLaw(r, p.inner, InnerSeek(p, from).value);
  }

  // ----- the stack -----

  type Stack = Part<Opt<BlockState>>

  ghost function StackReader(fill: int, start: u64, size: u64): Reader<Stack> {
    PartReader(OptReader(BlockReader(), Written, fill), start, size)
  }

  /** What holds for any seek holds without `End`. */
  lemma BlockNoEnd()
    requires Lawful(BlockReader(), Any)
    ensures Lawful(BlockReader(), NoEnd)
    ensures Reliable(BlockReader(), Any, Sound) ==> Reliable(BlockReader(), NoEnd, Sound)
  {
    forall s: BlockState, from | Reachable(BlockReader(), s, from) ensures SeekLaw(BlockReader(), s, from) {
      assert Any(from);
    }
  }

  /** The three layers together are a flat stream, with the end arithmetic as it is
      written: a window never asks its inner reader for its end. */
  lemma StackLawful(fill: int, start: u64, size: u64)
    requires start + size < TWO_63
    ensures Lawful(StackReader(fill, start, size), Any)
  {
    BlockLawful();
    BlockNoEnd();
    OptLawful(BlockReader(), Written, fill, NoEnd);
    PartLawful(OptReader(BlockReader(), Written, fill), start, size);
  }

  predicate SoundCache(s: Opt<BlockState>) {
    Sound(s.inner)
  }

  predicate SoundStack(s: Stack) {
    SoundCache(s.inner)
  }

  /** On a sound device the stack is reliable. */
  lemma StackReliable(fill: int, start: u64, size: u64)
    requires start + size < TWO_63
    ensures Reliable(StackReader(fill, start, size), Any, SoundStack)
  {
    BlockLawful();
    BlockReliable();
    BlockNoEnd();
    hide Lawful, Reliable, CacheHolds, InStep, Sound;
    OptLawful(BlockReader(), Written, fill, NoEnd);
    OptReliable(BlockReader(), Written, fill, NoEnd, Sound, SoundCache);
    PartReliable(OptReader(BlockReader(), Written, fill), start, size, SoundCache, SoundStack);
  }

  /** Every run of reads and seeks on the stack agrees with one flat sequence, the
      stretch of the disk under the window, up to the first operation that fails;
      only a read of the device or a seek to before 0 can fail, and on a sound device
      only the seek. */
  lemma StackRun(fill: int, s: Stack, ops: seq<Op>)
    requires s.start + s.size < TWO_63
    requires var w := StackReader(fill, s.start, s.size);
      && w.inv(s)
      && InReach(w.contents(s), s.cursor, s.needReset, 0x8000_0000_0000_0000 - s.start, Any, ops, Run(w, s, ops).1)
    requires var b := s.inner.inner;
      b.startLba * b.disk.blockSize + b.size <= |b.disk.bytes|
    ensures var b := s.inner.inner;
      var first := b.startLba * b.disk.blockSize + s.start;
      && first + s.size <= |b.disk.bytes|
      && var data, outs := b.disk.bytes[first..first + s.size], Run(StackReader(fill, s.start, s.size), s, ops).1;
      && FlatRun(data, s.cursor, ops, outs)
      && (b.disk.bad == {} && b.disk.blockSize <= 4096 ==> Completes(data, s.cursor, ops, outs))
  {
    hide Contents, InReach, FlatRun, Run, Completes, Sound, StackReader;
    StackView(fill, s);
    StackContents(s.inner.inner, s.start, s.size);
    SoundOver(s);
    StackFlat(fill, s, ops);
  }

  /** What the stack shows of the block reader's stream. */
  lemma StackView(fill: int, s: Stack)
    requires StackReader(fill, s.start, s.size).inv(s)
    ensures s.start + s.size <= s.inner.inner.size
    ensures StackReader(fill, s.start, s.size).contents(s) == Contents(s.inner.inner)[s.start..s.start + s.size]
    ensures StackReader(fill, s.start, s.size).limit == 0x8000_0000_0000_0000 - s.start
  {
    hide Stretch, Contents;
  }

  lemma StackFlat(fill: int, s: Stack, ops: seq<Op>)
    requires s.start + s.size < TWO_63
    requires var w := StackReader(fill, s.start, s.size);
      w.inv(s) && InReach(w.contents(s), s.cursor, s.needReset, w.limit, Any, ops, Run(w, s, ops).1)
    ensures var w := StackReader(fill, s.start, s.size);
      && FlatRun(w.contents(s), s.cursor, ops, Run(w, s, ops).1)
      && (SoundStack(s) ==> Completes(w.contents(s), s.cursor, ops, Run(w, s, ops).1))
  {
    hide Stretch, Contents, InReach, FlatRun, Run, Lawful, Reliable, CacheHolds, Completes, Sound;
    var w := StackReader(fill, s.start, s.size);
    StackLawful(fill, s.start, s.size);
    RunIsFlat(w, Any, s, ops);
    if SoundStack(s) {
      StackReliable(fill, s.start, s.size);
      RunCompletes(w, Any, SoundStack, s, ops);
    }
  }

  lemma SoundOver(s: Stack)
    requires s.inner.inner.startLba * s.inner.inner.disk.blockSize + s.inner.inner.size
      <= |s.inner.inner.disk.bytes|
    ensures s.inner.inner.disk.bad == {} && s.inner.inner.disk.blockSize <= 4096 ==> SoundStack(s)
  {
  }

  lemma StackContents(b: BlockState, start: nat, size: nat)
    requires start + size <= b.size
    requires b.startLba * b.disk.blockSize + b.size <= |b.disk.bytes|
    ensures var first := b.startLba * b.disk.blockSize + start;
      && first + size <= |b.disk.bytes|
      && Contents(b)[start..start + size] == b.disk.bytes[first..first + size]
  {
  }

  /** A newly built stack, with nothing cached and the window not yet placed. */
  lemma NewStack(fill: int, b: BlockState, start: u64, size: u64)
    requires start + size <= b.size
    ensures StackReader(fill, start, size).inv(Part(Opt(b, None, None, 0, 0), start, size, 0, true))
    ensures StackReader(fill, start, size).contents(Part(Opt(b, None, None, 0, 0), start, size, 0, true))
      == Contents(b)[start..start + size]
  {
    hide Stretch, Contents;
    var p: Stack := Part(Opt(b, None, None, 0, 0), start, size, 0, true);
    assert OptReader(BlockReader(), Written, fill).contents(p.inner) == Contents(b);
    assert OptReader(BlockReader(), Written, fill).inv(p.inner);
  }

  /** A window asks for all that is wanted and left in it: it falls short by less than a
      block, and then ends on a boundary of the device. */
  lemma StackReadProgress(fill: int, s: Stack, n: nat)
    requires StackReader(fill, s.start, s.size).inv(s) && s.start + s.size < TWO_63
    requires PartRead(OptReader(BlockReader(), Written, fill), s, n).1.Data?
    ensures var bs := s.inner.inner.disk.blockSize;
      var want := if s.cursor >= s.size then 0 else Min(n, s.size - s.cursor);
      var k := |PartRead(OptReader(BlockReader(), Written, fill), s, n).1.bytes|;
      && k <= want < k + bs
      && (k < want ==> Aligned(s.start + s.cursor + k, bs))
  {
    StackInStep(fill, s);
    hide *;
    var here := Placed(fill, s, n);
    PlacedReadProgress(fill, here, n);
  }

  lemma StackInStep(fill: int, s: Stack)
    requires StackReader(fill, s.start, s.size).inv(s)
    ensures InStep(OptReader(BlockReader(), Written, fill), s) && s.start + s.size <= s.inner.inner.size
  {
  }

  /** The stack as it is once placed, from which every read goes on. */
  lemma Placed(fill: int, s: Stack, n: nat) returns (here: Stack)
    requires InStep(OptReader(BlockReader(), Written, fill), s)
    ensures InStep(OptReader(BlockReader(), Written, fill), here) && !here.needReset
    ensures here.start == s.start && here.size == s.size && here.cursor == s.cursor
    ensures here.inner.inner == s.inner.inner.(cursor := s.start + s.cursor)
    ensures PartRead(OptReader(BlockReader(), Written, fill), s, n)
      == PartReadHere(OptReader(BlockReader(), Written, fill), here, n)
  {
    var r := OptReader(BlockReader(), Written, fill);
    here := if s.needReset then PartSeek(r, s, Start(0)).0 else s;
    hide BlockRead, Contents, OptRead, PartReadHere;
  }

  lemma PlacedReadProgress(fill: int, p: Stack, n: nat)
    requires p.inner.inner.cursor == p.start + p.cursor && p.start + p.size <= p.inner.inner.size
    requires PartReadHere(OptReader(BlockReader(), Written, fill), p, n).1.Data?
    ensures var want := if p.cursor >= p.size then 0 else Min(n, p.size - p.cursor);
      var k := |PartReadHere(OptReader(BlockReader(), Written, fill), p, n).1.bytes|;
      && k <= want < k + p.inner.inner.disk.blockSize
      && (k < want ==> Aligned(p.start + p.cursor + k, p.inner.inner.disk.blockSize))
  {
    if p.cursor < p.size {
      ReadProgress(p.inner.inner, Min(n, p.size - p.cursor));
    }
    hide BlockRead, Aligned, Contents;
  }

  /** When a seek of the window panics although the inner reader does not: a start past
      64 bits, or an end that is negative or past 63 bits. */
  lemma WindowPanics<S(!new)>(r: Reader<S>, p: Part<S>, from: SeekFrom)
    requires forall f :: !r.seek(p.inner, f).1.SeekPanic?
    requires p.start + p.size < 0x8000_0000_0000_0000
    ensures PartSeek(r, p, from).1.SeekPanic? <==>
      match from
      case Start(offset) => p.start + offset >= 0x1_0000_0000_0000_0000
      case End(delta) => p.start + p.size + delta < 0 || p.start + p.size + delta >= 0x8000_0000_0000_0000
      case Current(_) => false
  {
  }

  /** After a failed read a window over the cached block reader is still in step exactly
      when the block reader stood on a boundary or its block was unreadable; otherwise
      the inner reader has moved on without it. */
  lemma WindowAfterFailedRead(fill: int, p: Stack, n: nat)
    requires InStep(OptReader(BlockReader(), Written, fill), p)
    requires PartRead(OptReader(BlockReader(), Written, fill), p, n).1.ReadErr?
    ensures var b, at := p.inner.inner, p.start + p.cursor;
      var p' := PartRead(OptReader(BlockReader(), Written, fill), p, n).0;
      && p'.cursor == p.cursor && !p'.needReset
      && (InStep(OptReader(BlockReader(), Written, fill), p')
          <==> Aligned(at, b.disk.blockSize) || !Readable(b.disk, b.startLba + BlockOf(at, b.disk.blockSize), 1))
      && (InStep(OptReader(BlockReader(), Written, fill), p') <==> p'.inner.inner.cursor == p'.start + p'.cursor)
  {
    hide *;
    var here := Placed(fill, p, n);
    PlacedAfterFailedRead(fill, here, n);
  }

  lemma PlacedAfterFailedRead(fill: int, p: Stack, n: nat)
    requires InStep(OptReader(BlockReader(), Written, fill), p) && !p.needReset
    requires PartReadHere(OptReader(BlockReader(), Written, fill), p, n).1.ReadErr?
    ensures var b, at := p.inner.inner, p.start + p.cursor;
      var p' := PartReadHere(OptReader(BlockReader(), Written, fill), p, n).0;
      && p'.cursor == p.cursor && !p'.needReset
      && (InStep(OptReader(BlockReader(), Written, fill), p')
          <==> Aligned(at, b.disk.blockSize) || !Readable(b.disk, b.startLba + BlockOf(at, b.disk.blockSize), 1))
      && (InStep(OptReader(BlockReader(), Written, fill), p') <==> p'.inner.inner.cursor == p'.start + p'.cursor)
  {
    FailedRead(p.inner.inner, Min(n, p.size - p.cursor));
    hide BlockRead, Aligned, Readable, BlockOf;
  }

  // ----- the implementation -----

  class PartialReader {
    const inner: OptimizedSeek
    const start: u64
    const size: u64
    var cursor: nat
    /** Whether the first read still has to seek to 0. */
    var needReset: bool

    ghost predicate Valid() {
      inner.Valid()
    }

    ghost function State(): Stack
      requires Valid()
      reads this, inner, inner.inner, inner.inner.inner
    {
      Part(inner.State(), start, size, cursor, needReset)
    }

    ghost function Inner(): Reader<Opt<BlockState>> {
      OptReader(BlockReader(), Written, 0)
    }

    constructor (inner: OptimizedSeek, start: u64, size: u64)
      requires inner.Valid()
      ensures Valid() && this.inner == inner
      ensures State() == Part(inner.State(), start, size, 0, true)
    {
      this.inner, this.start, this.size := inner, start, size;
      cursor, needReset := 0, true;
    }

    method Seek(from: SeekFrom) returns (r: SeekResult)
      requires Valid()
      modifies this, inner, inner.inner
      ensures (State(), r) == PartSeek(Inner(), old(State()), from)
    {
      hide OptSeek;
      needReset := false;
      match from {
        case Start(offset) =>
          if start + offset >= TWO_64 { return SeekPanic; }
          r := inner.Seek(Start(start + offset));
        case Current(delta) =>
          r := inner.Seek(Current(delta));
        case End(delta) =>
          var target := AsI64((start + size) % TWO_64) + delta;
          if !(0 <= target < TWO_63) { return SeekPanic; }
          r := inner.Seek(Start(target));
      }
      if !r.At? {
        return;
      }
      if start > r.pos {
        return SeekErr;
      }
      cursor := r.pos - start;
      return At(cursor);
    }

    method Read(dst: array<byte>, len: nat) returns (r: IoRead)
      requires Valid() && len <= dst.Length
      modifies this, inner, inner.inner, dst
      ensures State() == PartRead(Inner(), old(State()), len).0
      ensures ReadMatches(r, PartRead(Inner(), old(State()), len).1, len, old(dst[..]), dst[..])
    {
      hide PartReadHere, OptRead, OptSeek;
      if needReset {
        needReset := false;
        var reset := Seek(Start(0));
        if !reset.At? {
          return if reset.SeekErr? then Err else Panic;
        }
      }
      r := ReadHere(dst, len);
    }

    /** A read in the window once it has been placed. */
    method ReadHere(dst: array<byte>, len: nat) returns (r: IoRead)
      requires Valid() && len <= dst.Length
      modifies this, inner, inner.inner, dst
      ensures State() == PartReadHere(Inner(), old(State()), len).0
      ensures ReadMatches(r, PartReadHere(Inner(), old(State()), len).1, len, old(dst[..]), dst[..])
    {
      hide OptRead, ReadMatches;
      if cursor >= size {
        NothingMatches(dst[..], len);
        return Ok(0);
      }
      var left := size - cursor;
      var n := if len > left then left else len;
      ghost var out := OptRead(BlockReader(), inner.State(), n).1;
      r := inner.Read(dst, n);
      Widen(r, out, n, len, old(dst[..]), dst[..]);
      if r.Ok? {
        cursor := cursor + r.count;
      }
    }

    lemma NothingMatches(before: seq<byte>, len: nat)
      requires len <= |before|
      ensures ReadMatches(Ok(0), Data([]), len, before, before)
    {
    }

    lemma Widen(r: IoRead, out: ReadResult, n: nat, len: nat, before: seq<byte>, after: seq<byte>)
      requires ReadMatches(r, out, n, before, after) && n <= len <= |before|
      ensures ReadMatches(r, out, len, before, after)
      ensures r.Ok? <==> out.Data?
      ensures r.Ok? ==> r.count == |out.bytes|
    {
      if out.ReadErr? {
        assert after[len..] == after[n..][len - n..];
        assert before[len..] == before[n..][len - n..];
      }
    }
  }
}
