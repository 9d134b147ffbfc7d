/** Moving the choice of the boot menu (src/ui.rs:15-32). */
module Menu {

  /** The place `k` steps from `current`, around the end of a menu of `n` entries. */
  function Around(current: nat, k: nat, n: nat, rev: bool): (r: nat)
    requires current < n && k <= n
    ensures r == if rev then (current + n - k) % n else (current + k) % n
  {
    Wrap(current + n - k, n);
    Wrap(current + k, n);
    if !rev then (if current + k < n then current + k else current + k - n)
    else if current >= k then current - k else current - k + n
  }

  lemma Wrap(x: nat, n: nat)
    requires n > 0 && x < 2 * n
    ensures x % n == if x < n then x else x - n
  {
  }

  /** `r` is the first selectable entry met after leaving `current`, `k` steps away. */
  predicate Nearest(options: seq<bool>, current: nat, rev: bool, k: nat, r: nat) {
    && current < |options|
    && 1 <= k <= |options|
    && r == Around(current, k, |options|, rev)
    && options[r]
    && forall j | 1 <= j < k :: !options[Around(current, j, |options|, rev)]
  }

  /** Terminates whenever anything can be selected, and returns the cyclically nearest
      entry in the chosen direction. */
  method NextSelectable(current: nat, options: seq<bool>, rev: bool) returns (r: nat)
    requires current < |options|
    requires exists i | 0 <= i < |options| :: options[i]
    ensures exists k :: Nearest(options, current, rev, k, r)
    ensures exists k ::
      && Nearest(options, current, rev, k, r)
      && r == if rev then (current + |options| - k) % |options| else (current + k) % |options|
  {
    var dir := if rev then -1 else 1;
    var index: int := current;
    ghost var k := 0;
    ghost var far := FirstSelectable(options, current, rev);
    while true
      invariant 0 <= k < far
      invariant index == Around(current, k, |options|, rev)
      invariant forall j | 1 <= j <= k :: !options[Around(current, j, |options|, rev)]
      decreases far - k
    {
      index := index + dir;
      if index == |options| {
        index := 0;
      } else if index == -1 {
        index := |options| - 1;
      }
      k := k + 1;
      if options[index] {
        assert Nearest(options, current, rev, k, index);
        return index;
      }
    }
  }

  /** Some number of steps at most the menu's length reaches a selectable entry. */
  lemma FirstSelectable(options: seq<bool>, current: nat, rev: bool) returns (k: nat)
    requires current < |options|
    requires exists i | 0 <= i < |options| :: options[i]
    ensures 1 <= k <= |options| && options[Around(current, k, |options|, rev)]
  {
    var i :| 0 <= i < |options| && options[i];
    k := if !rev then (if i > current then i - current else i - current + |options|)
         else if i < current then current - i else current - i + |options|;
  }

  /** There is only one nearest entry. */
  lemma NearestUnique(options: seq<bool>, current: nat, rev: bool, k: nat, r: nat, k': nat, r': nat)
    requires Nearest(options, current, rev, k, r) && Nearest(options, current, rev, k', r')
    ensures k == k' && r == r'
  {
  }

  /** From a selectable entry, up and down undo each other. */
  lemma UpDownUndo(options: seq<bool>, current: nat, rev: bool, k: nat, r: nat, k': nat, r': nat)
    requires current < |options| && options[current]
    requires Nearest(options, current, rev, k, r)
    requires Nearest(options, r, !rev, k', r')
    ensures r' == current && k' == k
  {
    var n, back := |options|, !rev;
    forall j | 1 <= j < k ensures !options[Around(r, j, n, back)] {
      assert Around(r, j, n, back) == Around(current, k - j, n, rev);
    }
    assert Nearest(options, r, back, k, current);
    NearestUnique(options, r, back, k, current, k', r');
  }
}
