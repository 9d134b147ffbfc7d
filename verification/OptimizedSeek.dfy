/** A reader that remembers its cursor and its end so that it can answer seeks
    without asking the device (src/io.rs:152-210). */
module SeekCache {
  import opened Streams
  import opened BlockIo

  /** The end arithmetic as the source writes it, which subtracts, and as its name
      and its two uses intend it. */
  datatype EndArith = Written | Repaired

  function AddEndOffset(a: EndArith, end: nat, offset: int): Option<nat> {
    var sum := if a.Written? then end - offset else end + offset;
    if end < TWO_63 && 0 <= sum < TWO_63 then Some(sum) else None
  }

  /** What a seek to `End(delta)` that arrived at `pos` says about the end. */
  function LearnedEnd(a: EndArith, pos: nat, delta: i64): Option<nat> {
    if delta == -TWO_63 then None else AddEndOffset(a, pos, -delta)
  }

  datatype Opt<S> = Opt(inner: S, cursor: Option<nat>, end: Option<nat>, total: nat, unstopped: nat)

  /** The guards under which a seek is answered from the cache. */
  predicate Stops<S>(a: EndArith, s: Opt<S>, from: SeekFrom) {
    s.cursor.Some? &&
    match from
    case Start(offset) => offset == s.cursor.value
    case Current(delta) => delta == 0
    case End(delta) => s.end.Some? && AddEndOffset(a, s.end.value, delta) == s.cursor
  }

  function OptSeek<S>(r: Reader<S>, a: EndArith, s: Opt<S>, from: SeekFrom): (Opt<S>, SeekResult) {
    var s0 := s.(total := s.total + 1);
    if Stops(a, s, from) then (s0, At(s.cursor.value))
    else
      var (inner, out) := r.seek(s.inner, from);
      var s1 := s0.(inner := inner, unstopped := s.unstopped + 1);
      if !out.At? then (s1, out)
      else
        var end := if from.End? && s.end.None? then LearnedEnd(a, out.pos, from.delta) else s.end;
        (s1.(cursor := Some(out.pos), end := end), out)
  }

  function OptRead<S>(r: Reader<S>, s: Opt<S>, n: nat): (Opt<S>, ReadResult) {
    var (inner, out) := r.read(s.inner, n);
    var s1 := s.(inner := inner);
    if out.Data? && s.cursor.Some? then
      (s1.(cursor := Some(s.cursor.value + |out.bytes|)), out)
    else (s1, out)
  }

  /** The cache invariant: a known cursor is the inner position, and a known end is
      the inner length, or, in the written form, off by twice the offset `fill` of
      the seek that filled it. */
  predicate CacheHolds<S>(r: Reader<S>, a: EndArith, fill: int, s: Opt<S>) {
    && r.inv(s.inner)
    && (s.cursor.Some? ==> !r.unset(s.inner) && s.cursor.value == r.position(s.inner))
    && (s.end.Some? ==> s.end.value == |r.contents(s.inner)| + if a.Written? then 2 * fill else 0)
    && s.unstopped <= s.total
  }

  function OptReader<S>(r: Reader<S>, a: EndArith, fill: int): Reader<Opt<S>> {
    Reader(
      (s: Opt<S>, n: nat) => OptRead(r, s, n),
      (s: Opt<S>, from: SeekFrom) => OptSeek(r, a, s, from),
      (s: Opt<S>) => CacheHolds(r, a, fill, s),
      (s: Opt<S>) => r.contents(s.inner),
      (s: Opt<S>) => r.position(s.inner),
      (s: Opt<S>) => r.unset(s.inner),
      r.limit)
  }

  /** The seeks whose `End` requests all use one offset. */
  function OneEnd(fill: int): SeekFrom -> bool {
    (from: SeekFrom) => from.End? ==> from.delta == fill
  }

  /** With the repaired arithmetic the cache is transparent; as written it is
      transparent as long as all `End` seeks share one offset. */
  lemma OptLawful<S(!new)>(r: Reader<S>, a: EndArith, fill: int, allow: SeekFrom -> bool)
    requires Lawful(r, allow) && r.limit <= TWO_63
    requires a.Written? ==> forall from | allow(from) :: OneEnd(fill)(from)
    ensures Lawful(OptReader(r, a, fill), allow)
  {
    var o := OptReader(r, a, fill);
    forall s, n: nat | o.inv(s) ensures ReadLaw(o, s, n) {
      assert ReadLaw(r, s.inner, n);
    }
    forall s, from | o.inv(s) && allow(from) && Reachable(o, s, from) ensures SeekLaw(o, s, from) {
      assert Reachable(r, s.inner, from);
      assert SeekLaw(r, s.inner, from);
      assert OneEnd(fill)(from) || a.Repaired?;
    }
  }

  /** The cache over a reliable reader is reliable. */
  lemma OptReliable<S(!new)>(
      r: Reader<S>, a: EndArith, fill: int, allow: SeekFrom -> bool, ok: S -> bool, ok': Opt<S> -> bool)
    requires Reliable(r, allow, ok) && forall s: Opt<S> :: ok'(s) == ok(s.inner)
    ensures Reliable(OptReader(r, a, fill), allow, ok')
  {
    var o := OptReader(r, a, fill);
    forall s, n: nat | o.inv(s) && ok'(s) ensures ReadDelivers(o, s, n, ok') {
      assert ReadDelivers(r, s.inner, n, ok);
    }
    forall s, from | o.inv(s) && ok'(s) && allow(from) && Reachable(o, s, from) ensures SeekKeeps(o, s, from, ok') {
      assert Reachable(r, s.inner, from);
      assert SeekKeeps(r, s.inner, from, ok);
    }
  }

  /** The answer a flat stream gives. */
  ghost predicate RightAnswer<S>(r: Reader<S>, inner: S, from: SeekFrom, out: SeekResult) {
    var t := Target(|r.contents(inner)|, r.position(inner), from);
    if t >= 0 then out == At(t) else !out.At?
  }

  /** Which offset stands behind a known end after a seek. */
  function Fill<S>(s: Opt<S>, from: SeekFrom, fill: int): int {
    if s.end.None? && from.End? then from.delta else fill
  }

  /** As written, over any seeks at all: the invariant survives, and a seek is
      answered right if and only if it is not a stopped `End` seek whose offset
      differs from the one that filled the end. */
  lemma WrittenSeekExact<S(!new)>(r: Reader<S>, fill: int, s: Opt<S>, from: SeekFrom)
    requires Lawful(r, Any) && r.limit <= TWO_63 && CacheHolds(r, Written, fill, s)
    requires Reachable(r, s.inner, from)
    ensures RightAnswer(r, s.inner, from, OptSeek(r, Written, s, from).1)
      <==> !(from.End? && Stops(Written, s, from) && from.delta != fill)
    ensures OptSeek(r, Written, s, from).1.At? ==>
      CacheHolds(r, Written, Fill(s, from, fill), OptSeek(r, Written, s, from).0)
  {
    assert SeekLaw(r, s.inner, from);
  }

  /** Which seeks reach the inner reader: all but those whose target is known to be the
      cursor. As written, an `End` seek is taken to end where the cached end, wrong by
      twice the offset `fill`, is wrong once more. */
  lemma StoppedExactly<S(!new)>(r: Reader<S>, a: EndArith, fill: int, s: Opt<S>, from: SeekFrom)
    requires CacheHolds(r, a, fill, s) && r.position(s.inner) < 0x8000_0000_0000_0000
    requires s.end.Some? ==> s.end.value < 0x8000_0000_0000_0000
    ensures var len, pos := |r.contents(s.inner)|, r.position(s.inner);
      OptSeek(r, a, s, from).0.unstopped == s.unstopped
      <==>
        && s.cursor.Some?
        && (from.End? ==> s.end.Some?)
        && pos == if a.Written? && from.End? then len + 2 * fill - from.delta else Target(len, pos, from)
    ensures OptSeek(r, a, s, from).0.unstopped == s.unstopped ==>
      OptSeek(r, a, s, from) == (s.(total := s.total + 1), At(r.position(s.inner)))
  {
  }

  /** A seek that gets through keeps what it learned: the cursor always, and with the first
      `End` seek the end. */
  lemma LearnsEnd<S(!new)>(r: Reader<S>, a: EndArith, fill: int, s: Opt<S>, from: SeekFrom)
    requires Lawful(r, Any) && r.limit <= TWO_63 && CacheHolds(r, a, fill, s) && Reachable(r, s.inner, from)
    requires var (s', out) := OptSeek(r, a, s, from); out.At? && s'.unstopped != s.unstopped
    ensures var (s', out) := OptSeek(r, a, s, from);
      && s'.cursor == Some(out.pos)
      && (s.end.Some? || !from.End? ==> s'.end == s.end)
      && (s.end.None? && from.End? && from.delta != -0x8000_0000_0000_0000 ==>
            var end := |r.contents(s.inner)| + if a.Written? then 2 * from.delta else 0;
            s'.end == if 0 <= end < 0x8000_0000_0000_0000 then Some(end) else None)
  {
    assert SeekLaw(r, s.inner, from);
  }

  /** Some step of the run is a stopped `End` seek with another offset than the one that
      filled the end. */
  predicate StopsWrong<S>(r: Reader<S>, fill: int, s: Opt<S>, ops: seq<Op>)
    decreases |ops|
  {
    ops != [] &&
    match ops[0]
    case ReadOp(n) =>
      var (s', out) := OptRead(r, s, n);
      out.Data? && StopsWrong(r, fill, s', ops[1..])
    case SeekOp(from) =>
      var (s', out) := OptSeek(r, Written, s, from);
      || (from.End? && Stops(Written, s, from) && from.delta != fill)
      || (out.At? && StopsWrong(r, Fill(s, from, fill), s', ops[1..]))
  }

  /** As written, a run is a run of one flat stream if and only if no step of it is such
      a seek. */
  lemma {:induction false} WrittenRunExact<S(!new)>(r: Reader<S>, fill: int, s: Opt<S>, ops: seq<Op>)
    requires Lawful(r, Any) && r.limit <= TWO_63 && CacheHolds(r, Written, fill, s)
    requires var outs := Run(OptReader(r, Written, 0), s, ops).1;
      InReach(r.contents(s.inner), r.position(s.inner), r.unset(s.inner), r.limit, Any, ops, outs)
    ensures var outs := Run(OptReader(r, Written, 0), s, ops).1;
      FlatRun(r.contents(s.inner), r.position(s.inner), ops, outs) <==> !StopsWrong(r, fill, s, ops)
    decreases |ops|
  {
    if ops != [] {
      match ops[0] {
        case ReadOp(n) => WrittenReadFirst(r, fill, s, n, ops);
        case SeekOp(from) => WrittenSeekFirst(r, fill, s, from, ops);
      }
    }
  }

  lemma {:induction false} WrittenReadFirst<S(!new)>(r: Reader<S>, fill: int, s: Opt<S>, n: nat, ops: seq<Op>)
    requires Lawful(r, Any) && r.limit <= TWO_63 && CacheHolds(r, Written, fill, s)
    requires ops != [] && ops[0] == ReadOp(n)
    requires var outs := Run(OptReader(r, Written, 0), s, ops).1;
      InReach(r.contents(s.inner), r.position(s.inner), r.unset(s.inner), r.limit, Any, ops, outs)
    ensures var outs := Run(OptReader(r, Written, 0), s, ops).1;
      FlatRun(r.contents(s.inner), r.position(s.inner), ops, outs) <==> !StopsWrong(r, fill, s, ops)
    decreases |ops|, 0
  {
    var (s', out) := OptRead(r, s, n);
    assert ReadLaw(r, s.inner, n);
    if out.Data? {
      var outs := Run(OptReader(r, Written, 0), s', ops[1..]).1;
      assert ([Got(out.bytes)] + outs)[1..] == outs;
      WrittenRunExact(r, fill, s', ops[1..]);
    }
  }

  lemma {:induction false} WrittenSeekFirst<S(!new)>(r: Reader<S>, fill: int, s: Opt<S>, from: SeekFrom, ops: seq<Op>)
    requires Lawful(r, Any) && r.limit <= TWO_63 && CacheHolds(r, Written, fill, s)
    requires ops != [] && ops[0] == SeekOp(from)
    requires var outs := Run(OptReader(r, Written, 0), s, ops).1;
      InReach(r.contents(s.inner), r.position(s.inner), r.unset(s.inner), r.limit, Any, ops, outs)
    ensures var outs := Run(OptReader(r, Written, 0), s, ops).1;
      FlatRun(r.contents(s.inner), r.position(s.inner), ops, outs) <==> !StopsWrong(r, fill, s, ops)
    decreases |ops|, 0
  {
    var (s', out) := OptSeek(r, Written, s, from);
    WrittenSeekExact(r, fill, s, from);
    if out.At? {
      var outs := Run(OptReader(r, Written, 0), s', ops[1..]).1;
      assert ([Moved(out.pos)] + outs)[1..] == outs;
      if RightAnswer(r, s.inner, from, out) {
        RightSeekKept(r, fill, s, from);
        WrittenRunExact(r, Fill(s, from, fill), s', ops[1..]);
      }
    }
  }

  /** A rightly answered seek leaves the inner reader where the answer says. */
  lemma RightSeekKept<S(!new)>(r: Reader<S>, fill: int, s: Opt<S>, from: SeekFrom)
    requires Lawful(r, Any) && r.limit <= TWO_63 && CacheHolds(r, Written, fill, s)
    requires Reachable(r, s.inner, from) && OptSeek(r, Written, s, from).1.At?
    requires RightAnswer(r, s.inner, from, OptSeek(r, Written, s, from).1)
    ensures var (s', out) := OptSeek(r, Written, s, from);
      && r.contents(s'.inner) == r.contents(s.inner)
      && r.position(s'.inner) == out.pos == Target(|r.contents(s.inner)|, r.position(s.inner), from)
      && !r.unset(s'.inner)
  {
    assert SeekLaw(r, s.inner, from);
  }

  /** A stopped `End` seek of the written form that is wrong: on a 512-byte device,
      seek to the end, to 511, and one past the end. */
  lemma WrittenSeekWrong()
    ensures var d: BlockState := BlockFields(Disk(512, [], {}), 0, 512, 0);
      var ops := [SeekOp(End(0)), SeekOp(Start(511)), SeekOp(End(1))];
      && Run(OptReader(BlockReader(), Written, 0), Opt(d, None, None, 0, 0), ops).1
           == [Moved(512), Moved(511), Moved(511)]
      && !FlatRun(Contents(d), 0, ops, [Moved(512), Moved(511), Moved(511)])
  {
    var d: BlockState := BlockFields(Disk(512, [], {}), 0, 512, 0);
    var o := OptReader(BlockReader(), Written, 0);
    var s0 := Opt(d, None, None, 0, 0);
    var s1 := o.seek(s0, End(0)).0;
    var s2 := o.seek(s1, Start(511)).0;
    var ops := [SeekOp(End(0)), SeekOp(Start(511)), SeekOp(End(1))];
    assert ops[1..] == [SeekOp(Start(511)), SeekOp(End(1))];
    assert ops[1..][1..] == [SeekOp(End(1))];
    assert Run(o, s2, [SeekOp(End(1))]).1 == [Moved(511)];
    assert Run(o, s1, ops[1..]).1 == [Moved(511), Moved(511)];
    var outs := [Moved(512), Moved(511), Moved(511)];
    assert outs[1..] == [Moved(511), Moved(511)] && outs[1..][1..] == [Moved(511)];
  }

  // ----- counting -----

  datatype Tally<S> = Tally(inner: S, seeks: nat)

  /** The inner reader with a count of the seeks that reach it. */
  function Counted<S>(r: Reader<S>): Reader<Tally<S>> {
    Reader(
      (s: Tally<S>, n: nat) => (s.(inner := r.read(s.inner, n).0), r.read(s.inner, n).1),
      (s: Tally<S>, from: SeekFrom) => (Tally(r.seek(s.inner, from).0, s.seeks + 1), r.seek(s.inner, from).1),
      (s: Tally<S>) => r.inv(s.inner),
      (s: Tally<S>) => r.contents(s.inner),
      (s: Tally<S>) => r.position(s.inner),
      (s: Tally<S>) => r.unset(s.inner),
      r.limit)
  }

  /** Seeks attempted in a run: all that have an outcome, and the one it died of. */
  function Seeks(ops: seq<Op>, done: nat): nat {
    if ops == [] then 0
    else (if ops[0].SeekOp? then 1 else 0) + if done == 0 then 0 else Seeks(ops[1..], done - 1)
  }

  /** Over every run, `unstopped_seeks` counts exactly the seeks that reached the
      inner reader, and `total_seeks` all of them. */
  lemma {:induction false} CountersExact<S>(r: Reader<S>, a: EndArith, fill: int, s: Opt<Tally<S>>, ops: seq<Op>)
    ensures var (s', outs) := Run(OptReader(Counted(r), a, fill), s, ops);
      && s'.unstopped - s.unstopped == s'.inner.seeks - s.inner.seeks
      && s'.total - s.total == Seeks(ops, |outs|)
    decreases |ops|
  {
    if ops != [] {
      var o := OptReader(Counted(r), a, fill);
      match ops[0]
      case ReadOp(n) =>
        if o.read(s, n).1.Data? { CountersExact(r, a, fill, o.read(s, n).0, ops[1..]); }
      case SeekOp(from) =>
        if o.seek(s, from).1.At? { CountersExact(r, a, fill, o.seek(s, from).0, ops[1..]); }
    }
  }

  // ----- after a failed read -----

  /** A failed read leaves the cache stale exactly when it had already copied the
      rest of a partial block; a seek back to the old cursor is then skipped
      although the device has moved on. */
  lemma StaleAfterFailedRead(a: EndArith, fill: int, s: Opt<BlockState>, n: nat)
    requires CacheHolds(BlockReader(), a, fill, s) && s.cursor.Some?
    requires OptRead(BlockReader(), s, n).1.ReadErr?
    ensures var bs := s.inner.disk.blockSize;
      var c := s.inner.cursor;
      var s' := OptRead(BlockReader(), s, n).0;
      && (CacheHolds(BlockReader(), a, fill, s')
          <==> (Aligned(c, bs) || !Readable(s.inner.disk, s.inner.startLba + BlockOf(c, bs), 1)))
      && OptSeek(BlockReader(), a, s', Start(c)).0.inner == s'.inner
  {
    FailedRead(s.inner, n);
  }

  /** A seek the block reader refuses changes nothing but the counters. */
  lemma RefusedSeekKeeps(a: EndArith, fill: int, s: Opt<BlockState>, from: SeekFrom)
    requires CacheHolds(BlockReader(), a, fill, s) && !OptSeek(BlockReader(), a, s, from).1.At?
    ensures OptSeek(BlockReader(), a, s, from)
      == (s.(total := s.total + 1, unstopped := s.unstopped + 1), SeekErr)
    ensures CacheHolds(BlockReader(), a, fill, OptSeek(BlockReader(), a, s, from).0)
  {
  }

  /** A stale cache delivers wrong bytes without an error: blocks of two bytes of which
      the third is bad, a read of five from byte 1, a seek back to 1, a read of one. */
  lemma StaleReadWrong()
    ensures var d: BlockState := BlockFields(Disk(2, [10, 11, 12, 13, 14, 15], {2}), 0, 6, 1);
      var r := BlockReader();
      var s0 := Opt(d, Some(1), None, 0, 0);
      var (s1, failed) := OptRead(r, s0, 5);
      var (s2, back) := OptSeek(r, Written, s1, Start(1));
      && CacheHolds(r, Written, 0, s0)
      && failed == ReadErr && back == At(1)
      && OptRead(r, s2, 1).1 == Data([12]) && Contents(d)[1] == 11
  {
    var d: BlockState := BlockFields(Disk(2, [10, 11, 12, 13, 14, 15], {2}), 0, 6, 1);
    var r := BlockReader();
    assert RoundUp(1, 2) == 2 && ReadLen(2, 2, 1) == 1;
    assert Readable(d.disk, 0, 1) && Readable(d.disk, 1, 1) && !Readable(d.disk, 1, 2);
    assert BlockRead(d, 5) == (d.(cursor := 2), ReadErr);
    var moved: BlockState := d.(cursor := 2);
    assert Contents(moved)[2..3] == [12];
    assert BlockRead(moved, 1).1 == Data([12]);
  }

  // ----- the implementation -----

  class OptimizedSeek {
    const inner: BlockIoReader
    var cursor: Option<nat>
    var end: Option<nat>
    var totalSeeks: nat
    var unstoppedSeeks: nat

    ghost predicate Valid() {
      inner.Valid()
    }

    ghost function State(): Opt<BlockState>
      requires Valid()
      reads this, inner, inner.inner
    {
      Opt(inner.State(), cursor, end, totalSeeks, unstoppedSeeks)
    }

    constructor (inner: BlockIoReader)
      requires inner.Valid()
      ensures Valid() && this.inner == inner
      ensures State() == Opt(inner.State(), None, None, 0, 0)
    {
      this.inner := inner;
      cursor, end, totalSeeks, unstoppedSeeks := None, None, 0, 0;
    }

    method TotalSeeks() returns (n: nat)
      ensures n == totalSeeks
    {
      return totalSeeks;
    }

    method StoppedSeeks() returns (n: nat)
      requires unstoppedSeeks <= totalSeeks
      ensures n + unstoppedSeeks == totalSeeks
    {
      return totalSeeks - unstoppedSeeks;
    }

    method Read(buf: array<byte>, len: nat) returns (r: IoRead)
      requires Valid() && len <= buf.Length
      modifies this, inner, buf
      ensures State() == OptRead(BlockReader(), old(State()), len).0
      ensures ReadMatches(r, OptRead(BlockReader(), old(State()), len).1, len, old(buf[..]), buf[..])
    {
      r := inner.Read(buf, len);
      if r.Ok? && cursor.Some? {
        cursor := Some(cursor.value + r.count);
      }
    }

    method Seek(from: SeekFrom) returns (r: SeekResult)
      requires Valid()
      modifies this, inner
      ensures (State(), r) == OptSeek(BlockReader(), Written, old(State()), from)
    {
      totalSeeks := totalSeeks + 1;
      match (cursor, end, from) {
        case (Some(c), _, Start(offset)) =>
          if offset == c { return At(c); }
        case (Some(c), _, Current(delta)) =>
          if delta == 0 { return At(c); }
        case (Some(c), Some(e), End(delta)) =>
          if AddEndOffset(Written, e, delta) == Some(c) { return At(c); }
        case _ =>
      }
      unstoppedSeeks := unstoppedSeeks + 1;
      r := inner.Seek(from);
      if !r.At? {
        return;
      }
      cursor := Some(r.pos);
      if from.End? && end.None? {
        end := LearnedEnd(Written, r.pos, from.delta);
      }
    }
  }
}
