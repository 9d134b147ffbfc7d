/** The loops that ask for a password until a device takes it (src/main.rs:425-458,
    src/main.rs:569-580): what each round offers, and when such a loop ends. */
module Retry {
  import opened Streams

  type Secret = seq<byte>

  /** Where a keyslot's secret comes from once the cache is not asked: the prompts from
      number `clock` on, or a file, which reads the same in every round. `raw` is set
      where a device takes the file as its key and refuses any length but 32. */
  datatype Supply = Prompts(typed: nat -> Secret, clock: nat) | KeyFile(content: Option<Secret>, raw: bool)

  /** A loop at its start. `entry` is what the cache holds for the keyslot; a device that
      is not healthy fails for another reason than the secret. */
  datatype Loop = Loop(entry: Option<Secret>, supply: Supply, passwords: set<Secret>, healthy: bool)

  datatype Verdict = Accepted | Again | GivesUp

  /** The secret offered in round `i`; only the first round may use the cache. */
  function Offer(l: Loop, i: nat): Option<Secret> {
    if i == 0 && l.entry.Some? then l.entry
    else
      match l.supply
      case Prompts(typed, clock) => Some(typed(clock + if l.entry.Some? then i - 1 else i))
      case KeyFile(content, _) => content
  }

  function Judge(l: Loop, offer: Option<Secret>): Verdict {
    if offer.None? || !l.healthy || (l.supply.KeyFile? && l.supply.raw && |offer.value| != 32) then GivesUp
    else if offer.value in l.passwords then Accepted
    else Again
  }

  lemma JudgeIs(l: Loop, offer: Option<Secret>)
    ensures Judge(l, offer).GivesUp? <==>
      offer.None? || !l.healthy || (l.supply.KeyFile? && l.supply.raw && |offer.value| != 32)
    ensures !Judge(l, offer).GivesUp? ==> (Judge(l, offer).Accepted? <==> offer.value in l.passwords)
  {
  }

  function Round(l: Loop, i: nat): Verdict {
    Judge(l, Offer(l, i))
  }

  /** The first `n` rounds all ask again. */
  predicate RunsFor(l: Loop, n: nat) {
    forall i: nat | i < n :: Round(l, i).Again?
  }

  predicate EndsAt(l: Loop, n: nat) {
    RunsFor(l, n) && !Round(l, n).Again?
  }

  ghost predicate Ends(l: Loop) {
    exists n: nat :: EndsAt(l, n)
  }

  ghost predicate Succeeds(l: Loop) {
    exists n: nat :: EndsAt(l, n) && Round(l, n).Accepted?
  }

  lemma {:induction false} FirstEnd(l: Loop, n: nat)
    requires !Round(l, n).Again?
    ensures exists m: nat | m <= n :: EndsAt(l, m)
  {
    if m: nat :| m < n && !Round(l, m).Again? {
      FirstEnd(l, m);
    } else {
      assert EndsAt(l, n);
    }
  }

  lemma OneEnd(l: Loop, m: nat, n: nat)
    requires EndsAt(l, m) && EndsAt(l, n)
    ensures m == n
  {
    assert !(m < n) && !(n < m);
  }

  /** What the rounds so far got is what the loop offers. */
  predicate Offered(l: Loop, tries: seq<Option<Secret>>) {
    forall i | 0 <= i < |tries| :: tries[i] == Offer(l, i)
  }

  /** A loop that is over: the rounds got what it offers, the last one and no other
      decided, and `ok` says how. */
  ghost predicate Over(l: Loop, tries: seq<Option<Secret>>, ok: bool) {
    && tries != [] && Offered(l, tries)
    && EndsAt(l, |tries| - 1)
    && (ok <==> Round(l, |tries| - 1).Accepted?)
    && (ok <==> Succeeds(l))
  }

  /** A loop that goes on. */
  predicate Asking(l: Loop, tries: seq<Option<Secret>>) {
    Offered(l, tries) && RunsFor(l, |tries|)
  }

  /** What a round's verdict means after rounds that all asked again. */
  lemma RoundDone(l: Loop, tries: seq<Option<Secret>>, got: Option<Secret>)
    requires Asking(l, tries) && got == Offer(l, |tries|)
    ensures Judge(l, got).Again? ==> Asking(l, tries + [got])
    ensures !Judge(l, got).Again? ==> Over(l, tries + [got], Judge(l, got).Accepted?)
  {
    var n := |tries|;
    if !Round(l, n).Again? {
      assert EndsAt(l, n);
      if m: nat :| EndsAt(l, m) && Round(l, m).Accepted? { OneEnd(l, m, n); }
    }
  }

  /** A round by which the loop is over. */
  lemma EndOf(l: Loop) returns (end: nat)
    requires Ends(l)
    ensures Asking(l, [])
    ensures forall tries | Asking(l, tries) :: |tries| <= end
  {
    end :| EndsAt(l, end);
  }

  /** Some prompt from the loop's clock on, or the file, gets this verdict. */
  ghost predicate Supplies(l: Loop, v: Verdict) {
    match l.supply
    case Prompts(typed, clock) => exists m: nat :: m >= clock && Judge(l, Some(typed(m))) == v
    case KeyFile(content, _) => Judge(l, content) == v
  }

  lemma SuppliedAt(l: Loop, v: Verdict) returns (n: nat)
    requires Supplies(l, v)
    ensures Round(l, n) == v
  {
    n := if l.entry.Some? then 1 else 0;
    if l.supply.Prompts? {
      var m: nat :| m >= l.supply.clock && Judge(l, Some(l.supply.typed(m))) == v;
      n := n + m - l.supply.clock;
    }
  }

  /** Whatever a later round offers is supplied. */
  lemma RoundSupplied(l: Loop, i: nat)
    requires i > 0 || l.entry.None?
    ensures Supplies(l, Round(l, i))
  {
    if l.supply.Prompts? {
      var m := l.supply.clock + if l.entry.Some? then i - 1 else i;
      assert Judge(l, Some(l.supply.typed(m))) == Round(l, i);
    }
  }

  /** A loop ends if and only if the cached entry decides it, or the file does, or some
      prompt from its clock on does; otherwise it asks for ever. */
  lemma RetryEnds(l: Loop)
    ensures Ends(l) <==>
      || (l.entry.Some? && !Judge(l, l.entry).Again?)
      || Supplies(l, Accepted)
      || Supplies(l, GivesUp)
    ensures !Ends(l) ==> forall n: nat :: RunsFor(l, n)
  {
    if l.entry.Some? && !Judge(l, l.entry).Again? {
      assert EndsAt(l, 0);
    } else if Supplies(l, Accepted) {
      var n := SuppliedAt(l, Accepted);
      FirstEnd(l, n);
    } else if Supplies(l, GivesUp) {
      var n := SuppliedAt(l, GivesUp);
      FirstEnd(l, n);
    } else {
      forall i: nat ensures Round(l, i).Again? {
        if i > 0 || l.entry.None? { RoundSupplied(l, i); }
      }
    }
  }

  /** On a healthy device a loop over prompts succeeds if and only if the cached entry or
      some prompt from its clock on is accepted, and a loop over a key file if and only if
      the first secret that decides is accepted: the entry, or else the file. */
  lemma RetrySucceeds(l: Loop)
    ensures Succeeds(l) <==>
      || (l.entry.Some? && Judge(l, l.entry).Accepted?)
      || ((l.entry.Some? ==> Judge(l, l.entry).Again?) && Supplies(l, Accepted))
  {
    if l.entry.Some? && !Judge(l, l.entry).Again? {
      assert EndsAt(l, 0);
      if n: nat :| EndsAt(l, n) && Round(l, n).Accepted? { OneEnd(l, 0, n); }
    } else {
      if Supplies(l, Accepted) {
        var n := SuppliedAt(l, Accepted);
        FirstEnd(l, n);
        var m: nat :| m <= n && EndsAt(l, m);
        GivesUpNever(l, m);
      }
      if n: nat :| EndsAt(l, n) && Round(l, n).Accepted? { RoundSupplied(l, n); }
    }
  }

  /** Where the supply has an accepted secret, no round gives up. */
  lemma GivesUpNever(l: Loop, i: nat)
    requires Supplies(l, Accepted) && (l.entry.Some? ==> Judge(l, l.entry).Again?)
    ensures !Round(l, i).GivesUp?
  {
  }

  /** A key file with the wrong content is read again and refused in every round; only a
      device that takes it raw refuses another length than 32 for good. */
  lemma WrongKeyFile(passwords: set<Secret>, content: Secret, raw: bool, entry: Option<Secret>)
    requires content !in passwords && (entry.Some? ==> entry.value == content)
    ensures var l := Loop(entry, KeyFile(Some(content), raw), passwords, true);
      if raw && |content| != 32 then EndsAt(l, 0) && Round(l, 0).GivesUp?
      else !Ends(l) && forall n: nat :: RunsFor(l, n)
  {
    var l := Loop(entry, KeyFile(Some(content), raw), passwords, true);
    assert forall i: nat :: Offer(l, i) == Some(content);
  }
}
