/** What the host takes for an answer: which of the packets a device returns ends the
    polling, and what the tokens of the answer say (opal/src/session.rs:147-197). */
module Polling {
  import opened Streams
  import opened Tokens
  import opened Response
  import opened Command
  import opened Session

  predicate Zeroed(packet: Packet, from: nat, to: nat)
    requires from <= to <= 2048
  {
    forall i | from <= i < to :: packet[i] == 0
  }

  /** Data is outstanding and the drive asks for no transfer: it is not ready. */
  predicate NotReady(packet: Packet) {
    !Zeroed(packet, 8, 12) && Zeroed(packet, 12, 16)
  }

  lemma {:induction false} ZeroNumber(s: seq<byte>)
    ensures FromBigEndian(s) == 0 <==> forall i | 0 <= i < |s| :: s[i] == 0
  {
    if s != [] {
      ZeroNumber(s[..|s| - 1]);
    }
  }

  lemma FieldZeroed(packet: Packet, at: nat)
    requires at + 4 <= 2048
    ensures Field(packet, at, 4) == 0 <==> Zeroed(packet, at, at + 4)
  {
    var s := packet[at..at + 4];
    ZeroNumber(s);
    assert forall i | 0 <= i < 4 :: s[i] == packet[at + i];
    assert forall i | at <= i < at + 4 :: packet[i] == s[i - at];
  }

  lemma FinalExact(r: Received)
    ensures Final(r) <==> r.RecvErr? || !NotReady(r.packet)
  {
    if r.Received? {
      FieldZeroed(r.packet, 8);
      FieldZeroed(r.packet, 12);
    }
  }

  /** The device's state after `i` polls. */
  function StateAt<S>(dev: Device<S>, s: S, i: nat): S {
    if i == 0 then s else dev.recv(StateAt(dev, s, i - 1)).0
  }

  lemma {:induction false} StateLater<S>(dev: Device<S>, s: S, i: nat)
    ensures StateAt(dev, dev.recv(s).0, i) == StateAt(dev, s, i + 1)
  {
    if i > 0 { StateLater(dev, s, i - 1); }
  }

  /** Polling takes the first answer that is an error or a packet that is ready: bytes 8 to
      11 are zero, or bytes 12 to 15 are not. All before were packets that were not. */
  lemma {:induction false} PollExact<S(!new)>(dev: Device<S>, s: S) returns (n: nat)
    requires Answers(dev)
    ensures Poll(dev, s) == dev.recv(StateAt(dev, s, n))
    ensures var r := dev.recv(StateAt(dev, s, n)).1;
      r.Received? ==> Zeroed(r.packet, 8, 12) || !Zeroed(r.packet, 12, 16)
    ensures forall i: nat | i < n ::
      var r := dev.recv(StateAt(dev, s, i)).1;
      r.Received? && !Zeroed(r.packet, 8, 12) && Zeroed(r.packet, 12, 16)
    decreases dev.patience(s)
  {
    var (s', r) := dev.recv(s);
    FinalExact(r);
    n := 0;
    if !Final(r) {
      var m := PollExact(dev, s');
      n := m + 1;
      StateLater(dev, s, m);
      forall i: nat | i < n
        ensures var r := dev.recv(StateAt(dev, s, i)).1;
          r.Received? && !Zeroed(r.packet, 8, 12) && Zeroed(r.packet, 12, 16)
      {
        if i > 0 { StateLater(dev, s, i - 1); }
      }
    }
  }

  // ----- a slow device -----

  datatype Slow<S> = Slow(inner: S, busy: nat)

  /** The device, except that after every command it is not ready for some polls. */
  function SlowDevice<S>(dev: Device<S>, polls: S -> nat, notReady: Packet): Device<Slow<S>> {
    Device(
      (s: Slow<S>, packet: seq<byte>) =>
        var (inner, ok) := dev.send(s.inner, packet); (Slow(inner, polls(inner)), ok),
      (s: Slow<S>) =>
        if s.busy > 0 then (s.(busy := s.busy - 1), Received(notReady))
        else var (inner, r) := dev.recv(s.inner); (Slow(inner, 0), r),
      (s: Slow<S>) => var (inner, ok) := dev.reconnect(s.inner); (Slow(inner, 0), ok),
      (s: Slow<S>) => SlowPatience(dev, s))
  }

  function SlowPatience<S>(dev: Device<S>, s: Slow<S>): nat {
    dev.patience(s.inner) + s.busy
  }

  lemma SlowAnswers<S(!new)>(dev: Device<S>, polls: S -> nat, notReady: Packet)
    requires Answers(dev) && NotReady(notReady)
    ensures Answers(SlowDevice(dev, polls, notReady))
  {
    var slow := SlowDevice(dev, polls, notReady);
    forall s ensures Final(slow.recv(s).1) || slow.patience(slow.recv(s).0) < slow.patience(s) {
      assert Final(dev.recv(s.inner).1) || dev.patience(dev.recv(s.inner).0) < dev.patience(s.inner);
      hide Final;
    }
  }

  lemma {:induction false} SlowPoll<S(!new)>(dev: Device<S>, polls: S -> nat, notReady: Packet, s: Slow<S>)
    requires Answers(dev) && NotReady(notReady) && Answers(SlowDevice(dev, polls, notReady))
    ensures var (s', r) := Poll(SlowDevice(dev, polls, notReady), s);
      (s'.inner, r) == Poll(dev, s.inner)
    decreases dev.patience(s.inner), s.busy
  {
    hide Answers;
    FinalExact(Received(notReady));
    hide Final;
    if s.busy > 0 {
      SlowPoll(dev, polls, notReady, s.(busy := s.busy - 1));
    } else {
      var (inner, r) := dev.recv(s.inner);
      if !Final(r) {
        Impatient(dev, s.inner);
        SlowPoll(dev, polls, notReady, Slow(inner, 0));
      }
    }
  }

  lemma Impatient<S(!new)>(dev: Device<S>, s: S)
    requires Answers(dev) && !Final(dev.recv(s).1)
    ensures dev.patience(dev.recv(s).0) < dev.patience(s)
  {
  }

  /** However many polls a device is not ready for, an exchange with it ends as with the
      device that answers at once. */
  lemma SlowExchange<S(!new)>(h: Host<S>, polls: S -> nat, notReady: Packet, s: Slow<S>, c: OpalCommand)
    requires Answers(h.dev) && NotReady(notReady)
    ensures Answers(SlowDevice(h.dev, polls, notReady))
    ensures var (s', reply) := Exchange(Host(SlowDevice(h.dev, polls, notReady), h.comId, h.isEprise), s, c);
      (s'.inner, reply) == Exchange(h, s.inner, c)
  {
    SlowAnswers(h.dev, polls, notReady);
    hide Answers;
    var (inner, ok) := h.dev.send(s.inner, Wire(c));
    hide Wire, Classify, Poll;
    SlowPoll(h.dev, polls, notReady, Slow(inner, polls(inner)));
  }

  function SlowHost<S>(h: Host<S>, polls: S -> nat, notReady: Packet): Host<Slow<S>> {
    Host(SlowDevice(h.dev, polls, notReady), h.comId, h.isEprise)
  }

  function Plain<S>(w: World<Slow<S>>): World<S> {
    World(w.state.inner, w.log)
  }

  lemma SlowSend<S(!new)>(h: Host<S>, polls: S -> nat, notReady: Packet, w: World<Slow<S>>,
                          ids: Ids, tree: Tree, eod: bool)
    requires Answers(h.dev) && NotReady(notReady) && Answers(SlowHost(h, polls, notReady).dev)
    ensures var (w', r) := SendTree(SlowHost(h, polls, notReady), w, ids, tree, eod);
      (Plain(w'), r) == SendTree(h, Plain(w), ids, tree, eod)
  {
    var slow := SlowHost(h, polls, notReady);
    assert CommandOf(slow, ids, tree, eod) == CommandOf(h, ids, tree, eod);
    hide CommandOf, Exchange, Answers;
    SlowExchange(h, polls, notReady, w.state, CommandOf(h, ids, tree, eod));
  }

  lemma SlowEnd<S(!new)>(h: Host<S>, polls: S -> nat, notReady: Packet, w: World<Slow<S>>, ids: Ids, result: Reply)
    requires Answers(h.dev) && NotReady(notReady) && Answers(SlowHost(h, polls, notReady).dev)
    ensures var (w', r) := EndSession(SlowHost(h, polls, notReady), w, ids, result);
      (Plain(w'), r) == EndSession(h, Plain(w), ids, result)
  {
    hide SendTree, Answers, EndCall;
    SlowSend(h, polls, notReady, w, ids, EndCall(), false);
  }

  /** An unlock is the same on a device that keeps the host polling, for any number of
      polls after each command: the same commands, replies and result. */
  lemma SlowUnlock<S(!new)>(h: Host<S>, polls: S -> nat, notReady: Packet, w: World<Slow<S>>, key: Key)
    requires Answers(h.dev) && NotReady(notReady)
    ensures Answers(SlowHost(h, polls, notReady).dev)
    ensures var (w', r) := UnlockRun(SlowHost(h, polls, notReady), w, key);
      (Plain(w'), r) == UnlockRun(h, Plain(w), key)
  {
    SlowAnswers(h.dev, polls, notReady);
    hide *;
    assert SlowHost(h, polls, notReady).dev == SlowDevice(h.dev, polls, notReady) by { SlowHostIs(h, polls, notReady); }
    SlowRun(h, polls, notReady, w, key);
  }

  lemma SlowHostIs<S(!new)>(h: Host<S>, polls: S -> nat, notReady: Packet)
    ensures SlowHost(h, polls, notReady) == Host(SlowDevice(h.dev, polls, notReady), h.comId, h.isEprise)
  {
  }

  lemma SlowRun<S(!new)>(h: Host<S>, polls: S -> nat, notReady: Packet, w: World<Slow<S>>, key: Key)
    requires Answers(h.dev) && NotReady(notReady) && Answers(SlowHost(h, polls, notReady).dev)
    ensures var (w', r) := UnlockRun(SlowHost(h, polls, notReady), w, key);
      (Plain(w'), r) == UnlockRun(h, Plain(w), key)
  {
    SlowHostIs(h, polls, notReady);
    hide SendTree, EndSession, StartCall, UnlockLocks, IdsOf, Answers, SlowHost, NotReady;
    var slow := SlowHost(h, polls, notReady);
    var call, noIds := StartCall(h.isEprise, key), Ids(0, 0);
    SlowSend(h, polls, notReady, w, noIds, call, true);
    var (w1, r1) := SendTree(slow, w, noIds, call, true);
    SlowEnd(h, polls, notReady, w1, noIds, r1);
    if r1.Ok? && IdsOf(r1.tokens).Some? {
      SlowLocks(h, polls, notReady, w1, IdsOf(r1.tokens).value);
    }
  }

  lemma SlowLocks<S(!new)>(h: Host<S>, polls: S -> nat, notReady: Packet, w1: World<Slow<S>>, ids: Ids)
    requires Answers(h.dev) && NotReady(notReady) && Answers(SlowHost(h, polls, notReady).dev)
    ensures var (w', r) := UnlockLocks(SlowHost(h, polls, notReady), w1, ids);
      (Plain(w'), r) == UnlockLocks(h, Plain(w1), ids)
  {
    hide SendTree, EndSession, RangeCall, MbrCall, Answers;
    var slow := SlowHost(h, polls, notReady);
    SlowSend(h, polls, notReady, w1, ids, RangeCall(0, ReadWrite), true);
    var (w2, r2) := SendTree(slow, w1, ids, RangeCall(0, ReadWrite), true);
    SlowEnd(h, polls, notReady, w2, ids, r2);
    SlowSend(h, polls, notReady, w2, ids, MbrCall(true), true);
    var (w3, r3) := SendTree(slow, w2, ids, MbrCall(true), true);
    SlowEnd(h, polls, notReady, w3, ids, r3);
    SlowEnd(h, polls, notReady, w3, ids, Ok([]));
  }

  // ----- what the answer says -----

  /** A failed send or receive is the only error of the link, and a failed send is not
      followed by a poll. */
  lemma ExchangeErrors<S(!new)>(h: Host<S>, s: S, c: OpalCommand)
    requires Answers(h.dev)
    ensures var (s1, sent) := h.dev.send(s, Wire(c));
      && (!sent ==> Exchange(h, s, c) == (s1, Failed(Io)))
      && (sent ==> Exchange(h, s, c).0 == Poll(h.dev, s1).0)
      && (sent ==> (Exchange(h, s, c).1 == Failed(Io) <==> Poll(h.dev, s1).1.RecvErr?))
  {
    hide Poll, Wire, Parse, UintOf;
  }

  /** The tokens that end a response: the end of the data and a list of three. */
  predicate StatusList(tokens: seq<seq<byte>>) {
    var n := |tokens|;
    n >= 6 && tokens[n - 6] == [0xF9] && tokens[n - 5] == [0xF0] && tokens[n - 1] == [0xF1]
  }

  /** A response succeeds exactly if a status is expected, its list is there, and the first
      number in it has a low byte of zero; another number is the failure's code; without
      a list there is no status, and a code that is no number panics. */
  lemma VerdictExact(tokens: seq<seq<byte>>, eod: bool)
    ensures Verdict(tokens, eod) == Failed(NoMethodStatus) <==> !(eod && StatusList(tokens))
    ensures eod && StatusList(tokens) ==>
      var code := tokens[|tokens| - 4];
      if code == [] || UintOf(code).NumberPanic? then Verdict(tokens, eod) == Panicked
      else if UintOf(code).n % 0x100 == 0 then Verdict(tokens, eod) == Ok(tokens)
      else Verdict(tokens, eod) == Failed(Status(UintOf(code).n % 0x100))
  {
    hide UintOf;
  }

  /** A packet that says it is longer than the buffer panics; otherwise its tokens, from byte
      56 on and as many bytes as its last header field says, decide. */
  lemma ClassifyExact(packet: Packet, eod: bool)
    ensures FromBigEndian(packet[16..20]) > 2028 ==> Classify(packet, eod) == Panicked
    ensures FromBigEndian(packet[16..20]) <= 2028 ==>
      var parsed := Parse(packet, 56, 56 + FromBigEndian(packet[52..56]));
      Classify(packet, eod) == if parsed.None? then Panicked else Verdict(parsed.value, eod)
  {
    hide FromBigEndian, Parse, Verdict;
  }
}
