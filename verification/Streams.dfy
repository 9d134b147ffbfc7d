/** The vocabulary the reader layers share: machine integers, seek requests,
    results, a record of functions standing for the `Read + Seek` traits, and
    what it means for such a reader to behave like one flat byte stream. */
module Streams {

  datatype Option<+T> = None | Some(value: T)

  type byte = b: int | 0 <= b < 256

  const TWO_63 := 0x8000_0000_0000_0000
  const TWO_64 := 0x1_0000_0000_0000_0000

  type u64 = n: int | 0 <= n < 0x1_0000_0000_0000_0000
  type i64 = n: int | -0x8000_0000_0000_0000 <= n < 0x8000_0000_0000_0000

  /** `x as i64` for a `u64`: the upper half of the range turns negative. */
  function AsI64(x: u64): i64 {
    if x < TWO_63 then x else x - TWO_64
  }

  /** `i64` addition of a release build: the sum wraps. */
  function WrapI64(x: int): (r: i64)
    ensures -TWO_63 <= x < TWO_63 ==> r == x
  {
    (x + TWO_63) % TWO_64 - TWO_63
  }

  function Min(a: nat, b: nat): nat {
    if a <= b then a else b
  }

  datatype SeekFrom = Start(offset: u64) | End(delta: i64) | Current(delta: i64)

  /** What a read hands back: bytes, an error, or a failed `unwrap`. */
  datatype ReadResult = Data(bytes: seq<byte>) | ReadErr | ReadPanic

  datatype SeekResult = At(pos: nat) | SeekErr | SeekPanic

  /** Where a seek on a flat stream of length `len` at `pos` is asked to go. */
  function Target(len: nat, pos: nat, from: SeekFrom): int {
    match from
    case Start(offset) => offset
    case End(delta) => len + delta
    case Current(delta) => pos + delta
  }

  /** `Read + Seek` for states of type `S`: the two operations, and the ghost
      view of a state as a flat stream. `unset` states have not been positioned
      yet; `limit` bounds the seek targets the reader can represent. */
  datatype Reader<!S> = Reader(
    read: (S, nat) -> (S, ReadResult),
    seek: (S, SeekFrom) -> (S, SeekResult),
    inv: S -> bool,
    contents: S -> seq<byte>,
    position: S -> nat,
    unset: S -> bool,
    limit: int)

  /** `out` is a piece of `data` at `pos`, nonempty whenever it could be. */
  ghost predicate FlatRead(data: seq<byte>, pos: nat, n: nat, out: seq<byte>) {
    if pos >= |data| then
      out == []
    else
      && |out| <= n
      && pos + |out| <= |data|
      && out == data[pos..pos + |out|]
      && (n > 0 ==> out != [])
  }

  ghost predicate ReadLaw<S>(r: Reader<S>, s: S, n: nat) {
    var (s', out) := r.read(s, n);
    out.Data? ==>
      && r.inv(s')
      && !r.unset(s')
      && r.contents(s') == r.contents(s)
      && FlatRead(r.contents(s), r.position(s), n, out.bytes)
      && r.position(s') == r.position(s) + |out.bytes|
  }

  /** A seek the law speaks about: representable, and not relative to a
      position nobody has set. */
  ghost predicate Reachable<S>(r: Reader<S>, s: S, from: SeekFrom) {
    && Target(|r.contents(s)|, r.position(s), from) < r.limit
    && (r.unset(s) ==> !from.Current?)
  }

  ghost predicate SeekLaw<S>(r: Reader<S>, s: S, from: SeekFrom) {
    var (s', out) := r.seek(s, from);
    var t := Target(|r.contents(s)|, r.position(s), from);
    if t >= 0 then
      && out == At(t)
      && r.inv(s')
      && !r.unset(s')
      && r.contents(s') == r.contents(s)
      && r.position(s') == t
    else
      !out.At?
  }

  /** The reader behaves like a flat stream as long as only seeks in `allow`
      are used. */
  ghost predicate Lawful<S(!new)>(r: Reader<S>, allow: SeekFrom -> bool) {
    && (forall s, n: nat | r.inv(s) :: ReadLaw(r, s, n))
    && (forall s, from | r.inv(s) && allow(from) && Reachable(r, s, from) :: SeekLaw(r, s, from))
  }

  /** From the states in `ok` on, reads deliver, and reads and seeks stay in `ok`. */
  ghost predicate Reliable<S(!new)>(r: Reader<S>, allow: SeekFrom -> bool, ok: S -> bool) {
    && (forall s, n: nat | r.inv(s) && ok(s) :: ReadDelivers(r, s, n, ok))
    && (forall s, from | r.inv(s) && ok(s) && allow(from) && Reachable(r, s, from) :: SeekKeeps(r, s, from, ok))
  }

  ghost predicate ReadDelivers<S>(r: Reader<S>, s: S, n: nat, ok: S -> bool) {
    r.read(s, n).1.Data? && ok(r.read(s, n).0)
  }

  ghost predicate SeekKeeps<S>(r: Reader<S>, s: S, from: SeekFrom, ok: S -> bool) {
    ok(r.seek(s, from).0)
  }

  // ----- runs -----

  datatype Op = ReadOp(n: nat) | SeekOp(from: SeekFrom)

  datatype Outcome = Got(bytes: seq<byte>) | Moved(pos: nat)

  /** The state after a run and its outcomes up to the first operation that fails. */
  function Run<S>(r: Reader<S>, s: S, ops: seq<Op>): (S, seq<Outcome>) {
    if ops == [] then (s, [])
    else match ops[0]
      case ReadOp(n) => (
        var (s', out) := r.read(s, n);
        if !out.Data? then (s', [])
        else var (s'', outs) := Run(r, s', ops[1..]); (s'', [Got(out.bytes)] + outs))
      case SeekOp(from) => (
        var (s', out) := r.seek(s, from);
        if !out.At? then (s', [])
        else var (s'', outs) := Run(r, s', ops[1..]); (s'', [Moved(out.pos)] + outs))
  }

  /** Where one flat cursor stands after outcomes `outs`. */
  function FlatCursor(pos: nat, outs: seq<Outcome>): nat
    decreases |outs|
  {
    if outs == [] then pos
    else match outs[0]
      case Got(bytes) => FlatCursor(pos + |bytes|, outs[1..])
      case Moved(p) => FlatCursor(p, outs[1..])
  }

  /** Reference semantics: `outs` is what one flat sequence `data` with a cursor
      at `pos` answers to `ops`, one outcome per operation performed, and if the
      run stopped early, it stopped at a read or at a seek to before 0. */
  ghost predicate FlatRun(data: seq<byte>, pos: nat, ops: seq<Op>, outs: seq<Outcome>)
    decreases |ops|
  {
    if ops == [] then outs == []
    else match ops[0]
      case ReadOp(n) =>
        outs != [] ==>
          && outs[0].Got?
          && FlatRead(data, pos, n, outs[0].bytes)
          && FlatRun(data, pos + |outs[0].bytes|, ops[1..], outs[1..])
      case SeekOp(from) =>
        var t := Target(|data|, pos, from);
        if t < 0 then outs == []
        else
          && outs != []
          && outs[0] == Moved(t)
          && FlatRun(data, t, ops[1..], outs[1..])
  }

  /** Every seek of the run stays below `limit`, is allowed, and a run from an
      unset state does not begin with a relative seek. */
  ghost predicate InReach(data: seq<byte>, pos: nat, unset: bool, limit: int, allow: SeekFrom -> bool,
                          ops: seq<Op>, outs: seq<Outcome>)
    decreases |ops|
  {
    ops == [] ||
    match ops[0]
    case ReadOp(n) =>
      outs != [] && outs[0].Got? ==>
        InReach(data, pos + |outs[0].bytes|, false, limit, allow, ops[1..], outs[1..])
    case SeekOp(from) =>
      var t := Target(|data|, pos, from);
      && t < limit
      && allow(from)
      && (unset ==> !from.Current?)
      && (t >= 0 && outs != [] ==> InReach(data, t, false, limit, allow, ops[1..], outs[1..]))
  }

  /** Any run of a lawful reader is a run of one flat stream. */
  lemma {:induction false} RunIsFlat<S(!new)>(r: Reader<S>, allow: SeekFrom -> bool, s: S, ops: seq<Op>)
    requires Lawful(r, allow) && r.inv(s)
    requires InReach(r.contents(s), r.position(s), r.unset(s), r.limit, allow, ops, Run(r, s, ops).1)
    ensures FlatRun(r.contents(s), r.position(s), ops, Run(r, s, ops).1)
    ensures |Run(r, s, ops).1| == |ops| ==>
              && r.inv(Run(r, s, ops).0)
              && r.contents(Run(r, s, ops).0) == r.contents(s)
              && r.position(Run(r, s, ops).0) == FlatCursor(r.position(s), Run(r, s, ops).1)
    decreases |ops|
  {
    if ops != [] {
      match ops[0] {
        case ReadOp(n) =>
          var (s', out) := r.read(s, n);
          assert ReadLaw(r, s, n);
          if out.Data? {
            var outs := Run(r, s', ops[1..]).1;
            assert ([Got(out.bytes)] + outs)[1..] == outs;
            RunIsFlat(r, allow, s', ops[1..]);
          }
        case SeekOp(from) =>
          var (s', out) := r.seek(s, from);
          assert Reachable(r, s, from);
          assert SeekLaw(r, s, from);
          if out.At? {
            var outs := Run(r, s', ops[1..]).1;
            assert ([Moved(out.pos)] + outs)[1..] == outs;
            RunIsFlat(r, allow, s', ops[1..]);
          }
      }
    }
  }

  /** Every operation has an outcome, or the run stopped at a seek to before 0. */
  ghost predicate Completes(data: seq<byte>, pos: nat, ops: seq<Op>, outs: seq<Outcome>) {
    && |outs| <= |ops|
    && (|outs| < |ops| ==>
          var op := ops[|outs|];
          op.SeekOp? && Target(|data|, FlatCursor(pos, outs), op.from) < 0)
  }

  /** A run of a reader that is reliable as well completes. */
  lemma {:induction false} RunCompletes<S(!new)>(
      r: Reader<S>, allow: SeekFrom -> bool, ok: S -> bool, s: S, ops: seq<Op>)
    requires Lawful(r, allow) && Reliable(r, allow, ok) && r.inv(s) && ok(s)
    requires InReach(r.contents(s), r.position(s), r.unset(s), r.limit, allow, ops, Run(r, s, ops).1)
    ensures Completes(r.contents(s), r.position(s), ops, Run(r, s, ops).1)
    decreases |ops|
  {
    if ops != [] {
      match ops[0] {
        case ReadOp(n) =>
          var (s', out) := r.read(s, n);
          assert ReadLaw(r, s, n) && ReadDelivers(r, s, n, ok);
          var outs := Run(r, s', ops[1..]).1;
          assert ([Got(out.bytes)] + outs)[1..] == outs;
          RunCompletes(r, allow, ok, s', ops[1..]);
        case SeekOp(from) =>
          var (s', out) := r.seek(s, from);
          assert Reachable(r, s, from);
          assert SeekLaw(r, s, from) && SeekKeeps(r, s, from, ok);
          if out.At? {
            var outs := Run(r, s', ops[1..]).1;
            assert ([Moved(out.pos)] + outs)[1..] == outs;
            RunCompletes(r, allow, ok, s', ops[1..]);
          }
      }
    }
  }
}
