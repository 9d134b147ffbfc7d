/** The retry loop of `unlock_opal` against the conforming drive, which stands for the set
    of accepted secrets everywhere else (src/main.rs:425-458, opal/src/lib.rs:50-78). */
module DriveRetry {
  import opened Streams
  import opened Session
  import opened Tper
  import opened Retry

  /** The drive refuses nothing, and the host hears the session numbers it hands out. */
  ghost predicate Obliging(p: Policy) {
    forall n: nat :: p.refuse(n) == SUCCESS && IdsHeard(p, n)
  }

  /** A prompted password is hashed, the content of a key file is the key. */
  function KeyAt(derive: seq<byte> -> Option<Key>, l: Loop, i: nat): Option<Key> {
    match Offer(l, i)
    case None => None
    case Some(offer) => KeyOf(derive, if l.supply.KeyFile? then Raw(offer) else Password(offer)).0
  }

  /** Round `i`: fetch a secret, and unlock with its key. */
  ghost function Attempt(h: Host<Drive>, w: World<Drive>, key: Option<Key>): (World<Drive>, Verdict)
    requires Answers(h.dev)
  {
    if key.None? then (w, GivesUp)
    else
      var (w', r) := UnlockRun(h, w, key.value);
      (w', if r.Ok? then Accepted else if r == Failed(Status(NOT_AUTHORIZED)) then Again else GivesUp)
  }

  /** The world before round `n`. */
  ghost function WorldAt(h: Host<Drive>, w: World<Drive>, keys: nat -> Option<Key>, n: nat): World<Drive>
    requires Answers(h.dev)
  {
    if n == 0 then w else Attempt(h, WorldAt(h, w, keys, n - 1), keys(n - 1)).0
  }

  ghost function VerdictAt(h: Host<Drive>, w: World<Drive>, keys: nat -> Option<Key>, n: nat): Verdict
    requires Answers(h.dev)
  {
    Attempt(h, WorldAt(h, w, keys, n), keys(n)).1
  }

  /** The loop ends in round `n` with the drive unlocked. */
  ghost predicate UnlocksAt(h: Host<Drive>, w: World<Drive>, keys: nat -> Option<Key>, n: nat)
    requires Answers(h.dev)
  {
    VerdictAt(h, w, keys, n).Accepted? && AllAgain(h, w, keys, n)
  }

  ghost predicate AllAgain(h: Host<Drive>, w: World<Drive>, keys: nat -> Option<Key>, n: nat)
    requires Answers(h.dev)
  {
    forall i: nat | i < n :: VerdictAt(h, w, keys, i).Again?
  }

  /** The first `n` rounds all had a key, and none the PIN. */
  predicate AllWrong(keys: nat -> Option<Key>, pin: Key, n: nat) {
    forall i: nat | i < n :: keys(i).Some? && keys(i) != Some(pin)
  }

  function VerdictOn(key: Option<Key>, pin: Key): Verdict {
    if key.None? then GivesUp else if key.value == pin then Accepted else Again
  }

  /** What one round does to a drive without a session. */
  lemma AttemptExact(p: Policy, h: Host<Drive>, w: World<Drive>, key: Option<Key>)
    requires Setting(p, h) && Obliging(p) && w.state.session.None?
    ensures var (w', v) := Attempt(h, w, key);
      && w'.state.session.None? && w'.state.pin == w.state.pin
      && v == VerdictOn(key, w.state.pin)
      && (v.Accepted? ==> w'.state.locks == Locks(false, false, true))
      && (!v.Accepted? ==> w'.state.locks == w.state.locks)
  {
    if key.Some? {
      assert Willing(p, w.state) && IdsHeard(p, w.state.clock);
      UnlockExact(p, h, w, key.value);
      hide UnlockRun, IdsHeard;
    }
  }

  lemma WorldSteps(h: Host<Drive>, w: World<Drive>, keys: nat -> Option<Key>, n: nat)
    requires Answers(h.dev)
    ensures WorldAt(h, w, keys, 0) == w
    ensures n > 0 ==> WorldAt(h, w, keys, n) == Attempt(h, WorldAt(h, w, keys, n - 1), keys(n - 1)).0
  {
  }

  /** No session is open, and neither PIN nor locks have changed. */
  predicate Unmoved(before: Drive, d: Drive) {
    d.session.None? && d.pin == before.pin && d.locks == before.locks
  }

  lemma WrongKeeps(p: Policy, h: Host<Drive>, before: Drive, w: World<Drive>, key: Option<Key>)
    requires Setting(p, h) && Obliging(p) && Unmoved(before, w.state) && key != Some(before.pin)
    ensures Unmoved(before, Attempt(h, w, key).0.state)
  {
    AttemptExact(p, h, w, key);
    hide Attempt, Setting, Obliging;
  }

  /** Wrong keys only: the drive is as it was. */
  lemma {:induction false} StillLocked(p: Policy, h: Host<Drive>, w: World<Drive>, keys: nat -> Option<Key>, n: nat)
    requires Setting(p, h) && Obliging(p) && w.state.session.None?
    requires AllWrong(keys, w.state.pin, n)
    ensures Unmoved(w.state, WorldAt(h, w, keys, n).state)
  {
    hide *;
    SettingAnswers(p, h);
    WorldSteps(h, w, keys, n);
    if n == 0 {
      UnmovedYet(w.state);
    } else {
      AllWrongStep(keys, w.state.pin, n);
      StillLocked(p, h, w, keys, n - 1);
      WrongKeeps(p, h, w.state, WorldAt(h, w, keys, n - 1), keys(n - 1));
    }
  }

  lemma SettingAnswers(p: Policy, h: Host<Drive>)
    requires Setting(p, h)
    ensures Answers(h.dev)
  {
  }

  lemma UnmovedYet(d: Drive)
    requires d.session.None?
    ensures Unmoved(d, d)
  {
  }

  lemma AllWrongStep(keys: nat -> Option<Key>, pin: Key, n: nat)
    requires n > 0 && AllWrong(keys, pin, n)
    ensures AllWrong(keys, pin, n - 1) && keys(n - 1) != Some(pin)
  {
  }

  lemma VerdictExact(p: Policy, h: Host<Drive>, w: World<Drive>, keys: nat -> Option<Key>, n: nat)
    requires Setting(p, h) && Obliging(p) && w.state.session.None?
    requires AllWrong(keys, w.state.pin, n)
    ensures VerdictAt(h, w, keys, n) == VerdictOn(keys(n), w.state.pin)
    ensures VerdictAt(h, w, keys, n).Accepted? ==>
      WorldAt(h, w, keys, n + 1).state.locks == Locks(false, false, true)
  {
    StillLocked(p, h, w, keys, n);
    WorldSteps(h, w, keys, n + 1);
    hide Attempt, Setting, Obliging, WorldAt, AllWrong;
    AttemptExact(p, h, WorldAt(h, w, keys, n), keys(n));
  }

  lemma {:induction false} AgainMeansWrong(
      p: Policy, h: Host<Drive>, w: World<Drive>, keys: nat -> Option<Key>, n: nat)
    requires Setting(p, h) && Obliging(p) && w.state.session.None?
    requires AllAgain(h, w, keys, n)
    ensures AllWrong(keys, w.state.pin, n)
  {
    hide VerdictAt, Setting, Obliging;
    if n > 0 {
      AgainMeansWrong(p, h, w, keys, n - 1);
      VerdictExact(p, h, w, keys, n - 1);
    }
  }

  /** Round `n` is the first with the PIN, and every round before had a key. */
  predicate FirstPin(keys: nat -> Option<Key>, pin: Key, n: nat) {
    keys(n) == Some(pin) && AllWrong(keys, pin, n)
  }

  /** The drive is unlocked in round `n` exactly when that is the first with the PIN and
      none before it was without a key; range 0 is then open and the MBR done. */
  lemma UnlocksExact(p: Policy, h: Host<Drive>, w: World<Drive>, keys: nat -> Option<Key>, n: nat)
    requires Setting(p, h) && Obliging(p) && w.state.session.None?
    ensures UnlocksAt(h, w, keys, n) <==> FirstPin(keys, w.state.pin, n)
    ensures UnlocksAt(h, w, keys, n) ==> WorldAt(h, w, keys, n + 1).state.locks == Locks(false, false, true)
  {
    if UnlocksAt(h, w, keys, n) { UnlockedByPin(p, h, w, keys, n); }
    if FirstPin(keys, w.state.pin, n) { PinUnlocks(p, h, w, keys, n); }
  }

  lemma UnlockedByPin(p: Policy, h: Host<Drive>, w: World<Drive>, keys: nat -> Option<Key>, n: nat)
    requires Setting(p, h) && Obliging(p) && w.state.session.None? && UnlocksAt(h, w, keys, n)
    ensures FirstPin(keys, w.state.pin, n)
    ensures WorldAt(h, w, keys, n + 1).state.locks == Locks(false, false, true)
  {
    assert Answers(h.dev);
    hide VerdictAt, WorldAt, Attempt, Setting, Obliging, AllAgain, AllWrong;
    AgainMeansWrong(p, h, w, keys, n);
    VerdictExact(p, h, w, keys, n);
  }

  lemma PinUnlocks(p: Policy, h: Host<Drive>, w: World<Drive>, keys: nat -> Option<Key>, n: nat)
    requires Setting(p, h) && Obliging(p) && w.state.session.None? && FirstPin(keys, w.state.pin, n)
    ensures UnlocksAt(h, w, keys, n)
  {
    assert Answers(h.dev);
    hide VerdictAt, WorldAt, Attempt, Setting, Obliging;
    forall i: nat | i < n ensures VerdictAt(h, w, keys, i).Again? {
      assert AllWrong(keys, w.state.pin, i);
      VerdictExact(p, h, w, keys, i);
    }
    VerdictExact(p, h, w, keys, n);
  }

  function Keys(derive: seq<byte> -> Option<Key>, l: Loop): nat -> Option<Key> {
    (i: nat) => KeyAt(derive, l, i)
  }

  /** The loop's set of accepted secrets stands for a drive with this PIN: of the offered
      secrets it holds exactly those whose key is the PIN, and passwords can be hashed. */
  ghost predicate StandsFor(l: Loop, derive: seq<byte> -> Option<Key>, pin: Key) {
    && l.healthy && (l.supply.KeyFile? ==> l.supply.raw)
    && forall i: nat | Offer(l, i).Some? ::
         && (l.supply.Prompts? ==> KeyAt(derive, l, i).Some?)
         && (KeyAt(derive, l, i).Some? ==> (Offer(l, i).value in l.passwords <==> KeyAt(derive, l, i) == Some(pin)))
  }

  lemma RoundStandsFor(l: Loop, derive: seq<byte> -> Option<Key>, pin: Key, i: nat)
    requires StandsFor(l, derive, pin)
    ensures Round(l, i) == VerdictOn(Keys(derive, l)(i), pin)
  {
  }

  /** Against an obliging drive the loop with the set of accepted secrets ends well exactly
      when the drive is unlocked: when some offered secret has the PIN as its key, and
      every one before it has a key at all. */
  lemma DriveRetryExact(p: Policy, h: Host<Drive>, w: World<Drive>, derive: seq<byte> -> Option<Key>, l: Loop)
    requires Setting(p, h) && Obliging(p) && w.state.session.None? && StandsFor(l, derive, w.state.pin)
    ensures Succeeds(l) <==> exists n: nat :: UnlocksAt(h, w, Keys(derive, l), n)
    ensures Succeeds(l) <==> exists n: nat :: FirstPin(Keys(derive, l), w.state.pin, n)
    ensures l.supply.Prompts? ==>
      (Succeeds(l) <==> exists n: nat :: KeyAt(derive, l, n) == Some(w.state.pin))
  {
    var pin, keys := w.state.pin, Keys(derive, l);
    SucceedsExact(l, derive, pin);
    forall n: nat ensures UnlocksAt(h, w, keys, n) <==> FirstPin(keys, pin, n) {
      UnlocksExact(p, h, w, keys, n);
    }
    assert forall n: nat :: keys(n) == KeyAt(derive, l, n);
    assert Answers(h.dev);
    hide UnlocksAt, FirstPin, Succeeds, Setting, Obliging, StandsFor, Keys, KeyAt;
    if l.supply.Prompts? {
      SomePin(l, derive, pin);
    }
  }

  lemma SucceedsExact(l: Loop, derive: seq<byte> -> Option<Key>, pin: Key)
    requires StandsFor(l, derive, pin)
    ensures Succeeds(l) <==> exists n: nat :: FirstPin(Keys(derive, l), pin, n)
  {
    forall n: nat ensures (EndsAt(l, n) && Round(l, n).Accepted?) <==> FirstPin(Keys(derive, l), pin, n) {
      EndIsFirstPin(l, derive, pin, n);
    }
    hide EndsAt, Round, FirstPin, StandsFor, Keys;
    if n: nat :| FirstPin(Keys(derive, l), pin, n) {
      assert EndsAt(l, n) && Round(l, n).Accepted?;
    }
  }

  /** Where every prompt has a key, one with the PIN is enough. */
  lemma SomePin(l: Loop, derive: seq<byte> -> Option<Key>, pin: Key)
    requires StandsFor(l, derive, pin) && l.supply.Prompts?
    ensures (exists n: nat :: FirstPin(Keys(derive, l), pin, n)) <==> exists n: nat :: KeyAt(derive, l, n) == Some(pin)
  {
    var keys := Keys(derive, l);
    if n: nat :| FirstPin(keys, pin, n) {
      assert KeyAt(derive, l, n) == Some(pin);
    }
    if n: nat :| KeyAt(derive, l, n) == Some(pin) {
      PromptsHaveKeys(l, derive, pin);
      SomeFirstPin(keys, pin, n);
    }
  }

  lemma EndIsFirstPin(l: Loop, derive: seq<byte> -> Option<Key>, pin: Key, n: nat)
    requires StandsFor(l, derive, pin)
    ensures (EndsAt(l, n) && Round(l, n).Accepted?) <==> FirstPin(Keys(derive, l), pin, n)
  {
    var keys := Keys(derive, l);
    forall i: nat ensures Round(l, i) == VerdictOn(keys(i), pin) {
      RoundStandsFor(l, derive, pin, i);
    }
    hide Round, StandsFor, Keys;
    if EndsAt(l, n) && Round(l, n).Accepted? {
      forall i: nat | i < n ensures keys(i).Some? && keys(i) != Some(pin) {
        assert Round(l, i).Again?;
      }
    }
  }

  lemma PromptsHaveKeys(l: Loop, derive: seq<byte> -> Option<Key>, pin: Key)
    requires StandsFor(l, derive, pin) && l.supply.Prompts?
    ensures forall i: nat :: KeyAt(derive, l, i).Some?
  {
    forall i: nat ensures KeyAt(derive, l, i).Some? {
      assert Offer(l, i).Some?;
    }
  }

  lemma {:induction false} SomeFirstPin(keys: nat -> Option<Key>, pin: Key, n: nat)
    requires keys(n) == Some(pin) && forall i: nat :: keys(i).Some?
    ensures exists m: nat :: FirstPin(keys, pin, m)
  {
    if m: nat :| m < n && keys(m) == Some(pin) {
      SomeFirstPin(keys, pin, m);
    } else {
      assert FirstPin(keys, pin, n);
    }
  }
}
