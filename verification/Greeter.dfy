/** Reading a file through locks whose keys may themselves be files: the recursive
    search, the password caches and the retry loops (src/main.rs:367-384,
    src/main.rs:424-697). */
module Greeter {
  import opened Streams
  import opened Config
  import opened Search
  import opened Retry
  import opened KeyGraph

  /** A request for the password of a keyslot, and whether the cache may answer it. */
  datatype Ask = Ask(keyslot: Name, cached: bool)

  function LocksOf(node: Node): set<Lock>
    decreases node, 0
  {
    (if node.lvm.Some? then LocksOfAll(node.lvm.value.lvs) else {})
    + (if node.luks.Some? then {node.luks.value.lock} + LocksOf(node.luks.value.inner) else {})
    + (if node.gpt.Some? then LocksOfAll(node.gpt.value.parts) else {})
  }

  function LocksOfAll(nodes: seq<Node>): set<Lock>
    decreases nodes, 1
  {
    if nodes == [] then {} else LocksOf(nodes[0]) + LocksOfAll(nodes[1..])
  }

  lemma {:induction false} LocksOfEach(nodes: seq<Node>, i: nat)
    requires i < |nodes|
    ensures LocksOf(nodes[i]) <= LocksOfAll(nodes)
  {
    if i > 0 { LocksOfEach(nodes[1..], i - 1); }
  }

  /** The partitions of a path of names. */
  function PartsOf(c: Config, names: seq<Name>): (r: seq<Partition>)
    requires forall n | n in names :: n in c.partitions
    ensures |r| == |names| && forall i | 0 <= i < |names| :: r[i] == c.partitions[names[i]]
  {
    if names == [] then [] else [c.partitions[names[0]]] + PartsOf(c, names[1..])
  }

  predicate Suffix<T(==)>(tail: seq<T>, whole: seq<T>) {
    |tail| <= |whole| && tail == whole[|whole| - |tail|..]
  }

  predicate Within(before: seq<Ask>, after: seq<Ask>, keyslots: set<Name>) {
    && before <= after
    && forall i | |before| <= i < |after| :: after[i].keyslot in keyslots
  }

  lemma WithinOne(a: seq<Ask>, ask: Ask, all: set<Name>)
    requires ask.keyslot in all
    ensures Within(a, a + [ask], all)
  {
  }

  lemma WithinSame(a: seq<Ask>, all: set<Name>)
    ensures Within(a, a, all)
  {
  }

  lemma WithinChain(a: seq<Ask>, b: seq<Ask>, c: seq<Ask>, some: set<Name>, all: set<Name>)
    requires Within(a, b, all) && Within(b, c, some) && some <= all
    ensures Within(a, c, all)
  {
  }

  /** How a device was opened: the partition that named it, and the secret it took. */
  datatype Opening = Opening(partition: Partition, secret: Secret)

  /** A drive whose root was searched: the partitions it was looked at with, and the drives
      that were unlocked by then. */
  datatype Root = Root(drive: Drive, parts: seq<Partition>, unlocked: set<string>)

  /** What has happened so far: the cached master keys, the devices opened and the drives
      unlocked and how, the requests for passwords, the files read and the roots searched. */
  datatype History = History(
    masterKeys: map<string, Secret>, openedWith: map<Lock, Opening>,
    unlocked: set<string>, unlockedWith: map<Opal, Opening>,
    asks: seq<Ask>, filesRead: seq<(Name, string)>, roots: seq<Root>)

  /** The partition's keyslot was asked for in between. */
  predicate Requested(before: seq<Ask>, after: seq<Ask>, o: Opening) {
    && o.partition.keyslot.Some?
    && exists i | |before| <= i < |after| :: after[i].keyslot == o.partition.keyslot.value
  }

  predicate Kept<K, V(==)>(a: map<K, V>, b: map<K, V>) {
    forall k | k in a :: k in b && b[k] == a[k]
  }

  /** Every entry is an old one or was asked for in between. */
  predicate AskedFor<K>(a: map<K, Opening>, b: map<K, Opening>, before: seq<Ask>, after: seq<Ask>) {
    forall k | k in b :: (k in a && b[k] == a[k]) || Requested(before, after, b[k])
  }

  /** Nothing is forgotten, and what is newly opened or unlocked was asked for. */
  predicate Grown(h: History, h': History) {
    && Kept(h.masterKeys, h'.masterKeys)
    && h.openedWith.Keys <= h'.openedWith.Keys && AskedFor(h.openedWith, h'.openedWith, h.asks, h'.asks)
    && h.unlocked <= h'.unlocked
    && h.unlockedWith.Keys <= h'.unlockedWith.Keys && AskedFor(h.unlockedWith, h'.unlockedWith, h.asks, h'.asks)
    && h.asks <= h'.asks && h.filesRead <= h'.filesRead && h.roots <= h'.roots
  }

  lemma GrownPrefix(h: History, h': History)
    requires Grown(h, h')
    ensures Kept(h.masterKeys, h'.masterKeys) && h.unlocked <= h'.unlocked
    ensures h.asks <= h'.asks && h.filesRead <= h'.filesRead && h.roots <= h'.roots
  {
  }

  lemma GrownSame(h: History)
    ensures Grown(h, h)
  {
  }

  lemma AskedForChain<K>(a: map<K, Opening>, b: map<K, Opening>, c: map<K, Opening>,
                         x: seq<Ask>, y: seq<Ask>, z: seq<Ask>)
    requires x <= y <= z && AskedFor(a, b, x, y) && AskedFor(b, c, y, z)
    ensures AskedFor(a, c, x, z)
  {
    forall k | k in c ensures (k in a && c[k] == a[k]) || Requested(x, z, c[k]) {
      if Requested(y, z, c[k]) {
        var i :| |y| <= i < |z| && z[i].keyslot == c[k].partition.keyslot.value;
      } else if Requested(x, y, c[k]) {
        var i :| |x| <= i < |y| && y[i].keyslot == c[k].partition.keyslot.value;
        assert z[i] == y[i];
      }
    }
  }

  lemma GrownChain(a: History, b: History, c: History)
    requires Grown(a, b) && Grown(b, c)
    ensures Grown(a, c)
  {
    AskedForChain(a.openedWith, b.openedWith, c.openedWith, a.asks, b.asks, c.asks);
    AskedForChain(a.unlockedWith, b.unlockedWith, c.unlockedWith, a.asks, b.asks, c.asks);
    hide AskedFor;
  }

  lemma GrownAsk(h: History, ask: Ask)
    ensures Grown(h, h.(asks := h.asks + [ask]))
  {
  }

  lemma GrownRead(h: History, read: (Name, string))
    ensures Grown(h, h.(filesRead := h.filesRead + [read]))
  {
  }

  lemma GrownRoot(h: History, root: Root)
    ensures Grown(h, h.(roots := h.roots + [root]))
  {
  }

  /** A device more, whose keyslot was asked for. */
  lemma GrownOpened(a: History, b: History, lock: Lock, o: Opening)
    requires Grown(a, b) && lock.uuid !in a.masterKeys && Requested(a.asks, b.asks, o)
    ensures Grown(a, b.(masterKeys := b.masterKeys[lock.uuid := lock.masterKey],
                        openedWith := b.openedWith[lock := o]))
  {
    hide Requested;
  }

  lemma GrownUnlocked(a: History, b: History, opal: Opal, o: Opening)
    requires Grown(a, b) && Requested(a.asks, b.asks, o)
    ensures Grown(a, b.(unlocked := b.unlocked + {opal.serial}, unlockedWith := b.unlockedWith[opal := o]))
  {
    hide Requested;
  }

  // ----- what a search went through -----

  /** The key of every lock on the way is cached. */
  predicate LocksOpen(way: Option<Branch>, keys: map<string, Secret>) {
    way.Some? ==>
      forall h | h in way.value.hops && h.Encrypted? :: h.lock.uuid in keys && keys[h.lock.uuid] == h.lock.masterKey
  }

  lemma LocksOpenMore(way: Option<Branch>, keys: map<string, Secret>, more: map<string, Secret>)
    requires LocksOpen(way, keys) && Kept(keys, more)
    ensures LocksOpen(way, more)
  {
  }

  lemma LocksBehind(hop: Hop, way: Option<Branch>, keys: map<string, Secret>)
    requires LocksOpen(way, keys)
    requires hop.Encrypted? ==> hop.lock.uuid in keys && keys[hop.lock.uuid] == hop.lock.masterKey
    ensures LocksOpen(Behind(hop, way), keys)
  {
  }

  lemma FilesHaveNoLocks(fs: Option<Fs>, parts: seq<Partition>, file: string, keys: map<string, Secret>)
    ensures LocksOpen(First(FsSight(fs), parts, file), keys)
  {
    FirstFs(fs, parts, file);
  }

  /** The front end is not the next partition, needs no unlocking, or is unlocked. */
  predicate FrontOpen(opal: Option<Opal>, parts: seq<Partition>, unlocked: set<string>) {
    (parts != [] && opal.Some? && opal.value.serial == parts[0].uuid && opal.value.wasLocked && parts[0].keyslot.Some?)
    ==> opal.value.serial in unlocked
  }

  /** So for both front ends of a drive, the second with what the first leaves. */
  predicate DriveOpen(d: Drive, parts: seq<Partition>, unlocked: set<string>) {
    parts != [] ==> FrontOpen(d.nvme, parts, unlocked) && FrontOpen(d.ata, After(d.nvme, parts), unlocked)
  }

  lemma DriveOpens(d: Drive, parts: seq<Partition>, first: set<string>, both: set<string>)
    requires parts != [] && FrontOpen(d.nvme, parts, first) && first <= both
    requires After(d.nvme, parts) != [] ==> FrontOpen(d.ata, After(d.nvme, parts), both)
    ensures DriveOpen(d, parts, both)
  {
  }

  lemma DriveOpenMore(d: Drive, parts: seq<Partition>, unlocked: set<string>, more: set<string>)
    requires DriveOpen(d, parts, unlocked) && unlocked <= more
    ensures DriveOpen(d, parts, more)
  {
  }

  /** The first `n` drives are open for what is left of the path when they are looked at. */
  predicate DrivesOpen(drives: seq<Drive>, parts: seq<Partition>, n: nat, unlocked: set<string>)
    requires n <= |drives|
  {
    forall k: nat | k < n :: DriveOpen(drives[k], LeftAt(drives, parts, k), unlocked)
  }

  lemma DrivesOpenNext(drives: seq<Drive>, parts: seq<Partition>, n: nat, unlocked: set<string>, more: set<string>)
    requires n < |drives| && DrivesOpen(drives, parts, n, unlocked) && unlocked <= more
    requires DriveOpen(drives[n], LeftAt(drives, parts, n), more)
    ensures DrivesOpen(drives, parts, n + 1, more)
  {
    forall k: nat | k < n + 1 ensures DriveOpen(drives[k], LeftAt(drives, parts, k), more) {
      if k < n { DriveOpenMore(drives[k], LeftAt(drives, parts, k), unlocked, more); }
    }
  }

  lemma NoWayNoLocks(keys: map<string, Secret>)
    ensures LocksOpen(None, keys)
  {
  }

  lemma EmptySearch(drives: seq<Drive>, parts: seq<Partition>, file: string)
    requires drives == [] && parts != []
    ensures FindOn(drives, parts, file) == None && WayOn(drives, parts, file) == None
  {
  }

  /** A drive that has the file serves it, and has a way to it. */
  lemma HereExact(d: Drive, parts: seq<Partition>, file: string)
    requires parts != []
    ensures var left := Left(d, parts);
      && (FindHere(d, parts, file).Some? <==> Serves(d, left, file))
      && (FindHere(d, parts, file).Some? <==> !d.spurious && Way(d.root, left, file).Some?)
      && (left == [] ==> FindHere(d, parts, file) == None)
  {
    ServesExact(d, Left(d, parts), file);
    hide Find, Left, Way, Serves;
  }

  /** Every root that was searched was that of an open drive at the time. */
  predicate RootsHold(roots: seq<Root>) {
    forall r | r in roots :: DriveOpen(r.drive, r.parts, r.unlocked)
  }

  lemma RootAdded(roots: seq<Root>, d: Drive, parts: seq<Partition>, unlocked: set<string>)
    requires RootsHold(roots) && DriveOpen(d, parts, unlocked)
    ensures RootsHold(roots + [Root(d, parts, unlocked)])
  {
  }

  /** Whether the cache was asked, for each request for a keyslot. */
  function CachedFlags(asks: seq<Ask>, k: Name): seq<bool> {
    if asks == [] then []
    else
      var last := asks[|asks| - 1];
      CachedFlags(asks[..|asks| - 1], k) + if last.keyslot == k then [last.cached] else []
  }

  /** The requests of a retry loop: only the first may be answered by the cache. */
  function FirstOnly(n: nat): seq<bool> {
    seq(n, i => i == 0)
  }

  lemma FlagOne(asks: seq<Ask>, ask: Ask)
    ensures CachedFlags(asks + [ask], ask.keyslot) == CachedFlags(asks, ask.keyslot) + [ask.cached]
  {
    assert (asks + [ask])[..|asks|] == asks;
  }

  lemma {:induction false} FlagsGrew(a: seq<Ask>, b: seq<Ask>, k: Name)
    requires a <= b && |CachedFlags(b, k)| > |CachedFlags(a, k)|
    ensures exists i | |a| <= i < |b| :: b[i].keyslot == k
    decreases |b|
  {
    assert b[..|a|] == a && b[..|b|] == b;
    if |a| < |b| && b[|b| - 1].keyslot != k {
      FlagsGrew(a, b[..|b| - 1], k);
      var i :| |a| <= i < |b| - 1 && b[..|b| - 1][i].keyslot == k;
      assert b[i].keyslot == k;
    }
  }

  lemma {:induction false} FlagsSame(a: seq<Ask>, b: seq<Ask>, keyslots: set<Name>, k: Name)
    requires Within(a, b, keyslots) && k !in keyslots
    ensures CachedFlags(b, k) == CachedFlags(a, k)
    decreases |b|
  {
    if |a| == |b| {
      assert a == b;
    } else {
      FlagsSame(a, b[..|b| - 1], keyslots, k);
    }
  }

  class Greeter {
    const config: Config
    const drives: seq<Drive>
    /** What the user types, one entry per prompt. */
    const typed: nat -> Secret

    var clock: nat
    var keyslotBuffer: map<Name, Secret>
    var masterKeyBuffer: map<string, Secret>
    var unlocked: set<string>
    ghost var asks: seq<Ask>
    /** The devices opened so far, and how. */
    ghost var openedWith: map<Lock, Opening>
    /** The drives unlocked so far, and how. */
    ghost var unlockedWith: map<Opal, Opening>
    /** The files read, and the drives whose root was searched. */
    ghost var filesRead: seq<(Name, string)>
    ghost var roots: seq<Root>

    ghost function Past(): History
      reads this
    {
      History(masterKeyBuffer, openedWith, unlocked, unlockedWith, asks, filesRead, roots)
    }

    constructor (config: Config, drives: seq<Drive>, typed: nat -> Secret)
      ensures this.config == config && this.drives == drives && this.typed == typed
      ensures clock == 0 && keyslotBuffer == map[] && masterKeyBuffer == map[] && unlocked == {}
      ensures Valid()
    {
      this.config, this.drives, this.typed := config, drives, typed;
      clock, keyslotBuffer, masterKeyBuffer, unlocked := 0, map[], map[], {};
      asks, openedWith, unlockedWith, filesRead, roots := [], map[], map[], [], [];
    }

    // ----- what is assumed of the configuration and the devices -----

    /** Every name in the configuration leads somewhere. */
    ghost predicate Closed() {
      && (forall n | n in config.partitions ::
            && Grounded(config, n)
            && (config.partitions[n].keyslot.Some? ==> config.partitions[n].keyslot.value in config.keyslots))
      && (forall k | k in config.keyslots && config.keyslots[k].File? ::
            config.keyslots[k].partition in config.partitions)
    }

    /** The path to a partition, root first. */
    ghost function Path(n: Name): (r: seq<Partition>)
      requires Closed() && n in config.partitions
      ensures r != [] && forall p | p in r :: p in config.partitions.Values
    {
      PartsOf(config, PathOf(config, n))
    }

    /** The keyslots on the way to a keyslot's key file. */
    ghost function NeededBy(k: Name): set<Name>
      requires Closed() && k in config.keyslots
    {
      match config.keyslots[k]
      case Stdin => {}
      case File(n, _) => set p | p in Path(n) && p.keyslot.Some? :: p.keyslot.value
    }

    ghost function Needs(): Graph
      requires Closed()
    {
      map k | k in config.keyslots :: NeededBy(k)
    }

    /** A rank that falls along the needs. */
    ghost function Rank(k: Name): nat {
      if Closed() && Acyclic(Needs()) then SomeRank(Needs())(k) else 0
    }

    ghost predicate Below(parts: seq<Partition>, r: nat) {
      forall p | p in parts && p.keyslot.Some? :: Rank(p.keyslot.value) < r
    }

    /** What reading a file yields when every lock opens. */
    ghost function Pure(n: Name, file: string): Option<Content>
      requires Closed() && n in config.partitions
    {
      FindOn(drives, Path(n), file)
    }

    ghost predicate TypedFrom(n: nat, passwords: set<Secret>) {
      exists m :: m >= n && typed(m) in passwords
    }

    /** The keyslot is eventually accepted. */
    ghost predicate Opens(k: Name, passwords: set<Secret>)
      requires Closed() && k in config.keyslots
    {
      match config.keyslots[k]
      case Stdin => forall n: nat :: TypedFrom(n, passwords)
      case File(p, f) => Pure(p, f).Some? && Pure(p, f).value in passwords
    }

    ghost function Locks(): set<Lock> {
      set d, l | d in drives && l in LocksOf(d.root) :: l
    }

    /** What these keyslots open accepts them eventually, and devices that share a UUID
        share a master key. */
    ghost predicate Fit(keys: set<Name>)
      requires Closed()
    {
      && (forall l, p | l in Locks() && p in config.partitions.Values && l.healthy
                        && p.uuid == l.uuid && p.keyslot.Some? && p.keyslot.value in keys ::
            Opens(p.keyslot.value, l.passwords))
      && (forall d, p | d in drives && p in config.partitions.Values && p.keyslot.Some? && p.keyslot.value in keys ::
            OpalFits(d.nvme, p) && OpalFits(d.ata, p))
      && (forall l, m, p | l in Locks() && m in Locks() && p in config.partitions.Values
                           && l.uuid == m.uuid == p.uuid && p.keyslot.Some? && p.keyslot.value in keys ::
            l.masterKey == m.masterKey)
    }

    ghost predicate OpalFits(o: Option<Opal>, p: Partition)
      requires Closed() && p in config.partitions.Values && p.keyslot.Some?
    {
      o.Some? && o.value.serial == p.uuid && o.value.wasLocked ==>
        OpalOpens(p.keyslot.value, o.value.passwords)
    }

    /** A drive takes a key file as the raw key, which must have 32 bytes. */
    ghost predicate OpalOpens(k: Name, passwords: set<Secret>)
      requires Closed() && k in config.keyslots
    {
      && Opens(k, passwords)
      && (config.keyslots[k].File? ==> |FileOf(k).value| == 32)
    }

    ghost function FileOf(k: Name): Option<Secret>
      requires Closed() && k in config.keyslots && config.keyslots[k].File?
    {
      Pure(config.keyslots[k].partition, config.keyslots[k].file)
    }

    /** Every name leads somewhere, and no keyslot needs itself to read its key file. */
    ghost predicate Assumed() {
      Closed() && Acyclic(Needs())
    }

    /** The retry loop for a keyslot, as the present state starts it. */
    ghost function LoopOf(k: Name, passwords: set<Secret>, healthy: bool, raw: bool): Loop
      requires Closed() && k in config.keyslots
      reads this
    {
      Loop(
        if k in keyslotBuffer then Some(keyslotBuffer[k]) else None,
        if config.keyslots[k].Stdin? then Prompts(typed, clock) else KeyFile(FileOf(k), raw),
        passwords, healthy)
    }

    // ----- what the caches hold -----

    /** A cached password was typed for some prompt, or is the content of its key file. */
    ghost predicate PasswordsHold(clock: nat, buffer: map<Name, Secret>)
      requires Closed()
    {
      forall k | k in buffer && k in config.keyslots ::
        match config.keyslots[k]
        case Stdin => exists m :: 0 <= m < clock && typed(m) == buffer[k]
        case File(p, f) => Pure(p, f) == Some(buffer[k])
    }

    /** Every device in the record took its password, for a partition of its name. */
    ghost predicate OpenedHold(openedWith: map<Lock, Opening>) {
      forall l | l in openedWith ::
        && l in Locks() && l.healthy && openedWith[l].secret in l.passwords
        && openedWith[l].partition.uuid == l.uuid && openedWith[l].partition.keyslot.Some?
    }

    /** The unlocked drives are those that took a password for a partition of their name. */
    ghost predicate UnlockedHold(unlocked: set<string>, unlockedWith: map<Opal, Opening>) {
      && (forall s | s in unlocked :: exists o :: o in unlockedWith && o.serial == s)
      && (forall o | o in unlockedWith ::
            && o.serial in unlocked && unlockedWith[o].secret in o.passwords
            && unlockedWith[o].partition.uuid == o.serial && unlockedWith[o].partition.keyslot.Some?)
    }

    /** The cached master keys are those of the devices that were opened. */
    ghost predicate MasterKeysHold(buffer: map<string, Secret>, openedWith: map<Lock, Opening>) {
      && (forall u | u in buffer :: exists l :: l in openedWith && l.uuid == u && l.masterKey == buffer[u])
      && (forall l | l in openedWith :: l.uuid in buffer)
    }

    ghost predicate KeysHold(buffer: map<string, Secret>, openedWith: map<Lock, Opening>) {
      OpenedHold(openedWith) && MasterKeysHold(buffer, openedWith)
    }

    ghost predicate Valid()
      reads this
    {
      Assumed() ==>
        && PasswordsHold(clock, keyslotBuffer) && KeysHold(masterKeyBuffer, openedWith)
        && UnlockedHold(unlocked, unlockedWith) && RootsHold(roots)
    }

    lemma CachedHolds(clock: nat, buffer: map<Name, Secret>, k: Name)
      requires Closed() && k in config.keyslots && PasswordsHold(clock, buffer) && k in buffer
      ensures config.keyslots[k].File? ==> FileOf(k) == Some(buffer[k])
    {
    }

    lemma PasswordAdded(clock: nat, buffer: map<Name, Secret>, k: Name)
      requires Closed() && k in config.keyslots && PasswordsHold(clock, buffer)
      ensures config.keyslots[k].Stdin? ==> PasswordsHold(clock + 1, buffer[k := typed(clock)])
      ensures config.keyslots[k].File? && FileOf(k).Some? ==> PasswordsHold(clock, buffer[k := FileOf(k).value])
    {
    }

    lemma MasterKeyAdded(buffer: map<string, Secret>, openedWith: map<Lock, Opening>, l: Lock, o: Opening)
      requires KeysHold(buffer, openedWith)
      requires l in Locks() && l.healthy && o.secret in l.passwords
      requires o.partition.uuid == l.uuid && o.partition.keyslot.Some?
      ensures KeysHold(buffer[l.uuid := l.masterKey], openedWith[l := o])
    {
      var after, more := buffer[l.uuid := l.masterKey], openedWith[l := o];
      forall u | u in after ensures exists m :: m in more && m.uuid == u && m.masterKey == after[u] {
        if u == l.uuid {
          assert l in more;
        } else {
          var m :| m in openedWith && m.uuid == u && m.masterKey == buffer[u];
          assert m in more;
        }
      }
    }

    lemma UnlockedAdded(unlocked: set<string>, unlockedWith: map<Opal, Opening>, opal: Opal, o: Opening)
      requires UnlockedHold(unlocked, unlockedWith) && o.secret in opal.passwords
      requires o.partition.uuid == opal.serial && o.partition.keyslot.Some?
      ensures UnlockedHold(unlocked + {opal.serial}, unlockedWith[opal := o])
    {
      var more := unlockedWith[opal := o];
      forall s | s in unlocked + {opal.serial} ensures exists x :: x in more && x.serial == s {
        if s == opal.serial {
          assert opal in more;
        } else {
          var x :| x in unlockedWith && x.serial == s;
          assert x in more;
        }
      }
    }

    /** A key that was not cached before is that of a device opened since, for a partition of
        its name whose keyslot was asked for. */
    lemma OpenedSince(h: History, h': History, u: string)
      requires KeysHold(h.masterKeys, h.openedWith) && KeysHold(h'.masterKeys, h'.openedWith) && Grown(h, h')
      requires u in h'.masterKeys && u !in h.masterKeys
      ensures exists l :: l in h'.openedWith && l !in h.openedWith && l.uuid == u && l.masterKey == h'.masterKeys[u]
                          && Requested(h.asks, h'.asks, h'.openedWith[l])
    {
      var l :| l in h'.openedWith && l.uuid == u && l.masterKey == h'.masterKeys[u];
      assert l !in h.openedWith;
      hide Requested;
    }

    /** Every lock on the way is open, and one whose key was not cached before was opened
        since, for a partition of its name whose keyslot was asked for. */
    ghost predicate WayOpened(way: Option<Branch>, h: History, h': History) {
      way.Some? ==> forall hop | hop in way.value.hops && hop.Encrypted? ::
        && hop.lock.uuid in h'.masterKeys && h'.masterKeys[hop.lock.uuid] == hop.lock.masterKey
        && (hop.lock.uuid !in h.masterKeys ==>
              exists l :: l in h'.openedWith && l !in h.openedWith && l.uuid == hop.lock.uuid
                          && l.masterKey == hop.lock.masterKey && Requested(h.asks, h'.asks, h'.openedWith[l]))
    }

    lemma OpenedWay(way: Option<Branch>, h: History, h': History)
      requires KeysHold(h.masterKeys, h.openedWith) && KeysHold(h'.masterKeys, h'.openedWith) && Grown(h, h')
      requires LocksOpen(way, h'.masterKeys)
      ensures WayOpened(way, h, h')
    {
      if way.Some? {
        forall hop | hop in way.value.hops && hop.Encrypted? && hop.lock.uuid !in h.masterKeys
          ensures exists l :: l in h'.openedWith && l !in h.openedWith && l.uuid == hop.lock.uuid
                              && l.masterKey == hop.lock.masterKey && Requested(h.asks, h'.asks, h'.openedWith[l])
        {
          OpenedSince(h, h', hop.lock.uuid);
        }
      }
    }

    /** Where a keyslot fits, a cached master key is the device's own. */
    lemma MasterKeyFits(l: Lock, p: Partition, keys: set<Name>)
      requires Assumed() && Valid() && Fit(keys) && l in Locks() && p in config.partitions.Values
      requires l.uuid == p.uuid && p.keyslot.Some? && p.keyslot.value in keys
      ensures l.uuid in masterKeyBuffer ==> masterKeyBuffer[l.uuid] == l.masterKey
    {
    }

    /** When the loop for a keyslot ends on a healthy device: a prompted one exactly when
        the cached password or one typed from now on is accepted, and then well; one with a
        key file exactly when the file cannot be read, or is accepted, or is refused as a
        raw key for its length. Otherwise it asks for ever. */
    lemma LoopEnds(k: Name, passwords: set<Secret>, raw: bool)
      requires Assumed() && Valid() && k in config.keyslots
      ensures var l := LoopOf(k, passwords, true, raw);
        match config.keyslots[k]
        case Stdin =>
          && (Ends(l) <==> Succeeds(l))
          && (Succeeds(l) <==> (k in keyslotBuffer && keyslotBuffer[k] in passwords) || TypedFrom(clock, passwords))
        case File(_, _) =>
          var c := FileOf(k);
          && (Succeeds(l) <==> c.Some? && c.value in passwords && (raw ==> |c.value| == 32))
          && (Ends(l) <==> Succeeds(l) || c.None? || (raw && |c.value| != 32))
      ensures var l := LoopOf(k, passwords, true, raw);
        !Ends(l) ==> forall n: nat :: RunsFor(l, n)
    {
      var l := LoopOf(k, passwords, true, raw);
      RetryEnds(l);
      RetrySucceeds(l);
      if k in keyslotBuffer { CachedHolds(clock, keyslotBuffer, k); }
      hide Assumed, Closed, Valid, PasswordsHold, KeysHold, Pure, Ends, Succeeds;
      if config.keyslots[k].Stdin? && TypedFrom(clock, passwords) {
        var m :| m >= clock && typed(m) in passwords;
        assert Judge(l, Some(l.supply.typed(m))) == Accepted;
      }
    }

    /** A keyslot that fits makes its loop end well, whatever the caches hold. */
    lemma LoopFits(k: Name, passwords: set<Secret>, raw: bool)
      requires Assumed() && Valid() && k in config.keyslots
      requires if raw then OpalOpens(k, passwords) else Opens(k, passwords)
      ensures Succeeds(LoopOf(k, passwords, true, raw))
    {
      LoopEnds(k, passwords, raw);
      hide Assumed, Valid, LoopOf, Pure;
    }

    /** A device that is not healthy ends its loop in the first round. */
    lemma LoopUnhealthy(k: Name, passwords: set<Secret>)
      requires Closed() && k in config.keyslots
      ensures var l := LoopOf(k, passwords, false, false); Ends(l) && !Succeeds(l)
    {
      assert EndsAt(LoopOf(k, passwords, false, false), 0);
    }

    // ----- dependencies -----

    /** The keyslots a keyslot may need, itself included. */
    ghost function KeyDeps(k: Name): set<Name>
      requires Assumed() && k in config.keyslots
      decreases Rank(k), 2
    {
      {k} + FileDeps(k)
    }

    /** The keyslots that reading a keyslot's key file may need. */
    ghost function FileDeps(k: Name): set<Name>
      requires Assumed() && k in config.keyslots
      decreases Rank(k), 1
    {
      match config.keyslots[k]
      case Stdin => {}
      case File(p, _) => Ranked(k); PathDeps(Path(p), Rank(k))
    }

    /** The keyslots the partitions of a path may need. */
    ghost function PathDeps(parts: seq<Partition>, r: nat): (deps: set<Name>)
      requires Assumed() && Below(parts, r)
      requires forall p | p in parts :: p in config.partitions.Values
      ensures forall p | p in parts && p.keyslot.Some? :: KeyDeps(p.keyslot.value) <= deps
      decreases r, 0, |parts|
    {
      if parts == [] then {}
      else
        assert parts[0] in parts && parts[0] in config.partitions.Values;
        (if parts[0].keyslot.Some? then KeyDeps(parts[0].keyslot.value) else {}) + PathDeps(parts[1..], r)
    }

    lemma Ranked(k: Name)
      requires Assumed() && k in config.keyslots && config.keyslots[k].File?
      ensures Below(Path(config.keyslots[k].partition), Rank(k))
    {
      var path := Path(config.keyslots[k].partition);
      forall p | p in path && p.keyslot.Some? ensures Rank(p.keyslot.value) < Rank(k) {
        assert p.keyslot.value in NeededBy(k);
        assert Step(Needs(), k, p.keyslot.value);
      }
    }

    /** A path needs only keyslots of a lower rank, and so a key file never its own. */
    lemma {:induction false} PathDepsBelow(parts: seq<Partition>, r: nat)
      requires Assumed() && Below(parts, r)
      requires forall p | p in parts :: p in config.partitions.Values
      ensures forall d | d in PathDeps(parts, r) :: Rank(d) < r
      decreases r, 0, |parts|
    {
      if parts != [] {
        assert parts[0] in parts;
        if parts[0].keyslot.Some? { FileDepsBelow(parts[0].keyslot.value); }
        PathDepsBelow(parts[1..], r);
      }
    }

    lemma {:induction false} FileDepsBelow(k: Name)
      requires Assumed() && k in config.keyslots
      ensures forall d | d in FileDeps(k) :: Rank(d) < Rank(k)
      ensures k !in FileDeps(k)
      decreases Rank(k), 1
    {
      if config.keyslots[k].File? {
        Ranked(k);
        PathDepsBelow(Path(config.keyslots[k].partition), Rank(k));
      }
    }

    lemma KeyRanked(k: Name)
      requires Assumed() && k in config.keyslots
      ensures k in KeyDeps(k) && FileDeps(k) <= KeyDeps(k)
      ensures config.keyslots[k].File? ==>
        && config.keyslots[k].partition in config.partitions
        && Below(Path(config.keyslots[k].partition), Rank(k))
        && PathDeps(Path(config.keyslots[k].partition), Rank(k)) == FileDeps(k)
    {
      if config.keyslots[k].File? { Ranked(k); }
    }

    lemma FitLess(some: set<Name>, all: set<Name>)
      requires Closed() && Fit(all) && some <= all
      ensures Fit(some)
    {
    }

    // ----- the operations -----

    /** `get_password_of_keyslot` */
    method GetPassword(k: Name, cached: bool) returns (r: Option<Secret>)
      requires Assumed() && Valid() && k in config.keyslots && Fit(FileDeps(k))
      modifies this
      ensures Valid() && Grown(old(Past()), Past())
      ensures cached && k in old(keyslotBuffer) ==>
        && r == Some(old(keyslotBuffer)[k])
        && clock == old(clock) && keyslotBuffer == old(keyslotBuffer)
      ensures !(cached && k in old(keyslotBuffer)) && config.keyslots[k].Stdin? ==>
        && r == Some(typed(old(clock)))
        && clock == old(clock) + 1 && keyslotBuffer == old(keyslotBuffer)[k := typed(old(clock))]
      ensures config.keyslots[k].File? ==> r == FileOf(k)
      ensures r.Some? ==> k in keyslotBuffer && keyslotBuffer[k] == r.value
      ensures Within(old(asks), asks, KeyDeps(k))
      ensures CachedFlags(asks, k) == CachedFlags(old(asks), k) + [cached]
      ensures old(asks) + [Ask(k, cached)] <= asks
      ensures if config.keyslots[k].File? && !(cached && k in old(keyslotBuffer)) then
          old(filesRead) + [(config.keyslots[k].partition, config.keyslots[k].file)] <= filesRead
        else asks == old(asks) + [Ask(k, cached)] && filesRead == old(filesRead)
      decreases Rank(k), 5
    {
      KeyRanked(k);
      FileDepsBelow(k);
      FlagOne(asks, Ask(k, cached));
      WithinOne(asks, Ask(k, cached), KeyDeps(k));
      if cached && k in keyslotBuffer && Closed() { CachedHolds(clock, keyslotBuffer, k); }
      GrownAsk(Past(), Ask(k, cached));
      asks := asks + [Ask(k, cached)];
      ghost var past := Past();
      assert past == old(Past()).(asks := asks);
      hide Assumed, Fit, PasswordsHold, KeysHold, UnlockedHold, RootsHold, FileOf;
      hide KeyDeps, FileDeps, Within, CachedFlags, Grown;
      if cached && k in keyslotBuffer {
        return Some(keyslotBuffer[k]);
      }
      r := FreshPassword(k);
      WithinChain(old(asks), past.asks, asks, FileDeps(k), KeyDeps(k));
      FlagsSame(past.asks, asks, FileDeps(k), k);
      GrownChain(old(Past()), past, Past());
      GrownPrefix(past, Past());
    }

    /** The part of `get_password_of_keyslot` behind the cache. */
    method FreshPassword(k: Name) returns (r: Option<Secret>)
      requires Assumed() && Valid() && k in config.keyslots && Fit(FileDeps(k))
      modifies this
      ensures Valid() && Grown(old(Past()), Past())
      ensures config.keyslots[k].Stdin? ==>
        && r == Some(typed(old(clock))) && clock == old(clock) + 1
        && keyslotBuffer == old(keyslotBuffer)[k := typed(old(clock))]
        && asks == old(asks) && filesRead == old(filesRead)
      ensures config.keyslots[k].File? ==>
        && r == FileOf(k)
        && old(filesRead) + [(config.keyslots[k].partition, config.keyslots[k].file)] <= filesRead
      ensures r.Some? ==> k in keyslotBuffer && keyslotBuffer[k] == r.value
      ensures Within(old(asks), asks, FileDeps(k))
      decreases Rank(k), 4
    {
      KeyRanked(k);
      WithinSame(asks, FileDeps(k));
      GrownSame(Past());
      hide Closed, Fit, Acyclic, PasswordsHold, KeysHold, Pure, Below, UnlockedHold, RootsHold;
      hide KeyDeps, FileDeps, PathDeps, Path, Within, Grown;
      var password: Secret;
      match config.keyslots[k] {
        case Stdin =>
          PasswordAdded(clock, keyslotBuffer, k);
          password := typed(clock);
          clock := clock + 1;
        case File(p, f) =>
          var content := ResolveAndReadFile(p, f, Rank(k));
          if content.None? {
            return None;
          }
          password := content.value;
          PasswordAdded(clock, keyslotBuffer, k);
      }
      keyslotBuffer := keyslotBuffer[k := password];
      return Some(password);
    }

    /** `resolve_and_read_file` */
    method ResolveAndReadFile(partition: Name, file: string, ghost r: nat) returns (content: Option<Content>)
      requires Assumed() && Valid() && partition in config.partitions && Below(Path(partition), r)
      requires Fit(PathDeps(Path(partition), r))
      modifies this
      ensures Valid() && Grown(old(Past()), Past())
      ensures content == Pure(partition, file)
      ensures content.Some? <==> exists i: nat :: ServesAt(drives, Path(partition), file, i)
      ensures forall i: nat, j: nat | FirstWay(drives, Path(partition), file, i, j) ::
        content == Some(Branches(drives[i].root)[j].files[file])
      ensures forall i: nat, j: nat | FirstWay(drives, Path(partition), file, i, j) ::
        && WayOpened(Some(Branches(drives[i].root)[j]), old(Past()), Past())
        && forall k: nat | k <= i :: DriveOpen(drives[k], LeftAt(drives, Path(partition), k), unlocked)
      ensures old(filesRead) + [(partition, file)] <= filesRead
      ensures Within(old(asks), asks, PathDeps(Path(partition), r))
      decreases r, 3
    {
      DriveSearchExact(drives, Path(partition), file);
      GroundedTerminates(config, partition);
      var names, _ := ResolvePath(config, partition);
      GrownRead(Past(), (partition, file));
      filesRead := filesRead + [(partition, file)];
      ghost var past, seen := Past(), 0;
      content, seen := FindReadFile(PartsOf(config, names.value), file, r);
      GrownChain(old(Past()), past, Past());
      GrownPrefix(past, Past());
      OpenedWay(WayOn(drives, Path(partition), file), old(Past()), Past());
      hide Grown, WayOpened, DriveOpen, FindOn, WayOn, LeftAt, Path, Fit, Closed, Acyclic;
      ghost var parts := PartsOf(config, names.value);
      forall i: nat, j: nat | FirstWay(drives, parts, file, i, j)
        ensures forall k: nat | k <= i :: DriveOpen(drives[k], LeftAt(drives, parts, k), unlocked)
      {
        assert i < seen;
      }
    }

    /** `find_read_file`; `seen` is how many drives it looked at. */
    method FindReadFile(parts: seq<Partition>, file: string, ghost r: nat)
      returns (content: Option<Content>, ghost seen: nat)
      requires Assumed() && Valid() && parts != [] && Below(parts, r)
      requires forall p | p in parts :: p in config.partitions.Values
      requires Fit(PathDeps(parts, r))
      modifies this
      ensures Valid() && Grown(old(Past()), Past())
      ensures content == FindOn(drives, parts, file)
      ensures LocksOpen(WayOn(drives, parts, file), masterKeyBuffer)
      ensures seen <= |drives| && DrivesOpen(drives, parts, seen, unlocked)
      ensures content.Some? ==> seen > 0 && ServesAt(drives, parts, file, seen - 1)
      ensures content.None? ==> seen == |drives| || LeftAt(drives, parts, seen) == []
      ensures Within(old(asks), asks, PathDeps(parts, r))
      decreases r, 2, 1
    {
      hide *;
      GrownSame(Past());
      WithinSame(asks, PathDeps(parts, r));
      SearchStarts(parts, file);
      var left := parts;
      var i := 0;
      while i < |drives|
        invariant 0 <= i <= |drives| && Valid() && Grown(old(Past()), Past())
        invariant Searching(parts, file, i, left)
        invariant DrivesOpen(drives, parts, i, unlocked)
        invariant Within(old(asks), asks, PathDeps(parts, r))
      {
        SearchStep(parts, file, i, left, r);
        ghost var past := Past();
        PastIs();
        left, content := TryDrive(drives[i], left, file, r);
        PastIs();
        GrownChain(old(Past()), past, Past());
        GrownPrefix(past, Past());
        DrivesOpenNext(drives, parts, i, past.unlocked, unlocked);
        WithinChain(old(asks), past.asks, asks, PathDeps(LeftAt(drives, parts, i), r), PathDeps(parts, r));
        i := i + 1;
        if left == [] || content.Some? {
          NoWayNoLocks(masterKeyBuffer);
          return content, i;
        }
      }
      NoWayNoLocks(masterKeyBuffer);
      SearchEnds(parts, file, left);
      return None, i;
    }

    /** The search over drives goes on from drive `i` with `left`. */
    ghost predicate Searching(parts: seq<Partition>, file: string, i: nat, left: seq<Partition>)
      requires parts != [] && i <= |drives|
    {
      && left != [] && left == LeftAt(drives, parts, i) && Suffix(left, parts)
      && FindOn(drives, parts, file) == FindOn(drives[i..], left, file)
      && WayOn(drives, parts, file) == WayOn(drives[i..], left, file)
    }

    lemma SearchStarts(parts: seq<Partition>, file: string)
      requires parts != []
      ensures Searching(parts, file, 0, parts) && DrivesOpen(drives, parts, 0, unlocked)
    {
      assert drives[0..] == drives;
    }

    lemma SearchEnds(parts: seq<Partition>, file: string, left: seq<Partition>)
      requires parts != [] && Searching(parts, file, |drives|, left)
      ensures FindOn(drives, parts, file) == None && WayOn(drives, parts, file) == None
    {
      EmptySearch(drives[|drives|..], left, file);
    }

    lemma PastIs()
      ensures Past().unlocked == unlocked && Past().asks == asks && Past().masterKeys == masterKeyBuffer
      ensures Past().filesRead == filesRead && Past().roots == roots
    {
    }

    /** What the next drive leaves, and whether it ends the search. */
    lemma SearchStep(parts: seq<Partition>, file: string, i: nat, left: seq<Partition>, r: nat)
      requires Assumed() && parts != [] && Below(parts, r) && i < |drives| && Searching(parts, file, i, left)
      requires forall p | p in parts :: p in config.partitions.Values
      requires Fit(PathDeps(parts, r))
      ensures drives[i] in drives && left != [] && left == LeftAt(drives, parts, i)
      ensures Below(left, r) && (forall p | p in left :: p in config.partitions.Values)
      ensures Fit(PathDeps(left, r)) && PathDeps(left, r) <= PathDeps(parts, r)
      ensures var d, next, here := drives[i], Left(drives[i], left), FindHere(drives[i], left, file);
        && LeftAt(drives, parts, i + 1) == next
        && (here.Some? ==> ServesAt(drives, parts, file, i))
        && (here.Some? ==> !d.spurious && next != [] && WayOn(drives, parts, file) == Way(d.root, next, file))
        && (here.Some? || next == [] ==> FindOn(drives, parts, file) == here)
        && (here.None? && next == [] ==> WayOn(drives, parts, file) == None)
        && (here.None? && next != [] ==> Searching(parts, file, i + 1, next))
    {
      SuffixDeps(parts, left, r);
      hide Assumed, Fit, PathDeps, Below, FindOn, WayOn, Way, Find, Left, FindHere, Serves;
      assert drives[i..][0] == drives[i] && drives[i..][1..] == drives[i + 1..];
      FindOnStep(drives[i..], left, file);
      WayOnStep(drives[i..], left, file);
      LeftAtNext(drives, parts, i);
      hide LeftAt;
      LeftSuffix(drives[i], left);
      HereExact(drives[i], left, file);
    }

    lemma LeftSuffix(d: Drive, parts: seq<Partition>)
      requires parts != []
      ensures Suffix(Left(d, parts), parts)
      ensures forall whole | Suffix(parts, whole) :: Suffix(Left(d, parts), whole)
    {
    }

    /** One round of `find_read_file`. */
    method TryDrive(d: Drive, parts: seq<Partition>, file: string, ghost r: nat)
      returns (left: seq<Partition>, content: Option<Content>)
      requires Assumed() && Valid() && parts != [] && Below(parts, r) && d in drives
      requires forall p | p in parts :: p in config.partitions.Values
      requires Fit(PathDeps(parts, r))
      modifies this
      ensures Valid() && Grown(old(Past()), Past())
      ensures left == Left(d, parts)
      ensures content == FindHere(d, parts, file)
      ensures DriveOpen(d, parts, unlocked)
      ensures left != [] && !d.spurious ==> LocksOpen(Way(d.root, left, file), masterKeyBuffer)
      ensures left != [] && !d.spurious ==>
        exists i | |old(roots)| <= i < |roots| ::
          roots[i].drive == d && roots[i].parts == parts && DriveOpen(d, parts, roots[i].unlocked)
      ensures Within(old(asks), asks, PathDeps(parts, r))
      decreases r, 2, 0
    {
      hide *;
      DriveParts(d, parts, file, r);
      ghost var past0 := Past();
      PastIs();
      left := TryOpal(d.nvme, parts, r);
      PastIs();
      ghost var p1, past1 := left, Past();
      if left == [] {
        DriveOpens(d, parts, unlocked, unlocked);
        return left, None;
      }
      left := TryOpal(d.ata, left, r);
      PastIs();
      ghost var past2 := Past();
      WithinChain(past0.asks, past1.asks, asks, PathDeps(p1, r), PathDeps(parts, r));
      GrownChain(past0, past1, past2);
      GrownPrefix(past1, past2);
      DriveOpens(d, parts, past1.unlocked, unlocked);
      if left == [] {
        return left, None;
      }
      if d.spurious {
        return left, None;
      }
      SearchRoot(d, parts);
      PastIs();
      ghost var past3 := Past();
      GrownChain(past0, past2, past3);
      content := FindInternal(d.root, left, file, r);
      PastIs();
      WithinChain(past0.asks, past3.asks, asks, PathDeps(left, r), PathDeps(parts, r));
      GrownChain(past0, past3, Past());
      GrownPrefix(past3, Past());
      DriveOpenMore(d, parts, past3.unlocked, unlocked);
      GrownPrefix(past0, past2);
      assert roots[|past2.roots|] == Root(d, parts, past2.unlocked);
    }

    /** What the parts of a round need. */
    lemma DriveParts(d: Drive, parts: seq<Partition>, file: string, r: nat)
      requires Assumed() && parts != [] && Below(parts, r) && d in drives
      requires forall p | p in parts :: p in config.partitions.Values
      requires Fit(PathDeps(parts, r))
      ensures LocksOf(d.root) <= Locks()
      ensures var p1 := After(d.nvme, parts);
        && Left(d, parts) == (if p1 == [] then [] else After(d.ata, p1))
        && FindHere(d, parts, file) == (if d.spurious then None else Find(d.root, Left(d, parts), file))
        && (Left(d, parts) == [] ==> FindHere(d, parts, file) == None)
        && Below(p1, r) && (forall p | p in p1 :: p in config.partitions.Values)
        && Fit(PathDeps(p1, r)) && PathDeps(p1, r) <= PathDeps(parts, r)
      ensures var left := Left(d, parts);
        && Below(left, r) && (forall p | p in left :: p in config.partitions.Values)
        && Fit(PathDeps(left, r)) && PathDeps(left, r) <= PathDeps(parts, r)
    {
      DriveLocks(d);
      HereExact(d, parts, file);
      AfterSuffix(d.nvme, parts);
      SuffixDeps(parts, After(d.nvme, parts), r);
      LeftSuffix(d, parts);
      SuffixDeps(parts, Left(d, parts), r);
      hide Assumed, Below, Fit, PathDeps, Suffix, Find, Way, Serves, Locks, LocksOf;
    }

    /** Record that a drive's root is searched. */
    ghost method SearchRoot(d: Drive, parts: seq<Partition>)
      requires Assumed() && Valid() && DriveOpen(d, parts, unlocked)
      modifies this`roots
      ensures Valid() && Grown(old(Past()), Past())
      ensures roots == old(roots) + [Root(d, parts, unlocked)]
    {
      RootAdded(roots, d, parts, unlocked);
      GrownRoot(Past(), Root(d, parts, unlocked));
      hide Assumed, Grown, PasswordsHold, KeysHold, UnlockedHold, RootsHold, DriveOpen;
      roots := roots + [Root(d, parts, unlocked)];
    }

    lemma DriveLocks(d: Drive)
      requires d in drives
      ensures LocksOf(d.root) <= Locks()
    {
    }

    lemma AfterSuffix(o: Option<Opal>, parts: seq<Partition>)
      requires parts != []
      ensures Suffix(After(o, parts), parts)
    {
    }

    /** The drive front end of `find_read_file`: unlock the drive if it is the next
        partition, and go on with the rest. */
    method TryOpal(opal: Option<Opal>, parts: seq<Partition>, ghost r: nat) returns (left: seq<Partition>)
      requires Assumed() && Valid() && parts != [] && Below(parts, r)
      requires forall p | p in parts :: p in config.partitions.Values
      requires Fit(PathDeps(parts, r))
      requires exists d :: d in drives && (d.nvme == opal || d.ata == opal)
      modifies this
      ensures Valid() && Grown(old(Past()), Past())
      ensures left == After(opal, parts)
      ensures FrontOpen(opal, parts, unlocked)
      ensures Within(old(asks), asks, PathDeps(parts, r))
      decreases r, 1
    {
      GrownSame(Past());
      hide Grown, Valid, Fit, Ends, Succeeds, LoopOf;
      if opal.None? || opal.value.serial != parts[0].uuid {
        return parts;
      }
      assert parts[0] in parts;
      if parts[0].keyslot.Some? {
        var k := parts[0].keyslot.value;
        assert KeyDeps(k) <= PathDeps(parts, r);
        KeyRanked(k);
        OpalLoopFits(opal.value, parts[0], PathDeps(parts, r));
        FitLess(FileDeps(k), PathDeps(parts, r));
        var ok, _ := UnlockOpal(opal.value, parts[0]);
        assert ok;
      }
      return parts[1..];
    }

    lemma OpalLoopFits(opal: Opal, p: Partition, keys: set<Name>)
      requires Assumed() && Valid() && Fit(keys) && p in config.partitions.Values
      requires p.keyslot.Some? && p.keyslot.value in keys && opal.serial == p.uuid
      requires exists d :: d in drives && (d.nvme == Some(opal) || d.ata == Some(opal))
      ensures opal.wasLocked ==> Succeeds(LoopOf(p.keyslot.value, opal.passwords, true, true))
      ensures opal.wasLocked ==> Ends(LoopOf(p.keyslot.value, opal.passwords, true, true))
    {
      if opal.wasLocked {
        assert OpalOpens(p.keyslot.value, opal.passwords);
        LoopFits(p.keyslot.value, opal.passwords, true);
      }
    }

    /** Where the caches and the clock stand before round `n` of a loop for a keyslot. */
    ghost predicate Standing(l: Loop, k: Name, n: nat, clock: nat, buffer: map<Name, Secret>)
      requires Closed() && k in config.keyslots
    {
      && (n == 0 ==> l.entry == if k in buffer then Some(buffer[k]) else None)
      && match config.keyslots[k]
         case Stdin =>
           && l.supply.Prompts? && l.supply.typed == typed
           && clock == l.supply.clock + if l.entry.Some? && n > 0 then n - 1 else n
         case File(_, _) => l.supply.KeyFile? && l.supply.content == FileOf(k)
    }

    lemma LoopStarts(k: Name, passwords: set<Secret>, healthy: bool, raw: bool)
      requires Closed() && k in config.keyslots
      ensures var l := LoopOf(k, passwords, healthy, raw);
        && Standing(l, k, 0, clock, keyslotBuffer)
        && l.passwords == passwords && l.healthy == healthy
        && (l.supply.KeyFile? <==> config.keyslots[k].File?)
        && (l.supply.KeyFile? ==> l.supply.raw == raw)
    {
      hide Closed, Pure;
    }

    /** The answer of `get_password_of_keyslot` is what the loop offers next. */
    lemma NextOffer(l: Loop, k: Name, n: nat, before: nat, buffer: map<Name, Secret>,
                    r: Option<Secret>, after: nat, buffer': map<Name, Secret>)
      requires Closed() && k in config.keyslots && Standing(l, k, n, before, buffer)
      requires n == 0 && k in buffer ==> r == Some(buffer[k]) && after == before
      requires !(n == 0 && k in buffer) && config.keyslots[k].Stdin? ==> r == Some(typed(before)) && after == before + 1
      requires config.keyslots[k].File? ==> r == FileOf(k)
      ensures r == Offer(l, n)
      ensures Standing(l, k, n + 1, after, buffer')
    {
    }

    /** What a loop for a keyslot has asked in `n` rounds: for that keyslot once a round,
        and only the first time of the cache; otherwise only for what its file needs. */
    ghost predicate Asked(before: seq<Ask>, after: seq<Ask>, k: Name, n: nat)
      requires Assumed() && k in config.keyslots
    {
      && Within(before, after, KeyDeps(k))
      && CachedFlags(after, k) == CachedFlags(before, k) + FirstOnly(n)
    }

    lemma NothingAsked(asks: seq<Ask>, k: Name)
      requires Assumed() && k in config.keyslots
      ensures Asked(asks, asks, k, 0)
    {
    }

    lemma AskedMore(before: seq<Ask>, now: seq<Ask>, after: seq<Ask>, k: Name, n: nat)
      requires Assumed() && k in config.keyslots && Asked(before, now, k, n)
      requires Within(now, after, KeyDeps(k)) && CachedFlags(after, k) == CachedFlags(now, k) + [n == 0]
      ensures Asked(before, after, k, n + 1)
    {
      hide Assumed, KeyDeps, CachedFlags;
      assert FirstOnly(n + 1) == FirstOnly(n) + [n == 0];
    }

    /** A loop with a round has asked for its keyslot. */
    lemma AskedRequested(before: seq<Ask>, after: seq<Ask>, o: Opening, n: nat)
      requires Assumed() && o.partition.keyslot.Some? && o.partition.keyslot.value in config.keyslots
      requires Asked(before, after, o.partition.keyslot.value, n) && n > 0
      ensures Requested(before, after, o)
    {
      hide Assumed, KeyDeps;
      FlagsGrew(before, after, o.partition.keyslot.value);
    }

    /** The question of one round of a retry loop. */
    method AskRound(k: Name, cached: bool, ghost l: Loop, ghost tries: seq<Option<Secret>>, ghost before: seq<Ask>)
      returns (password: Option<Secret>)
      requires Assumed() && Valid() && k in config.keyslots && Fit(FileDeps(k))
      requires Asking(l, tries) && (cached <==> tries == []) && Standing(l, k, |tries|, clock, keyslotBuffer)
      requires Asked(before, asks, k, |tries|)
      modifies this
      ensures Valid() && Grown(old(Past()), Past())
      ensures Standing(l, k, |tries| + 1, clock, keyslotBuffer)
      ensures Judge(l, password).Again? ==> Asking(l, tries + [password])
      ensures !Judge(l, password).Again? ==> Over(l, tries + [password], Judge(l, password).Accepted?)
      ensures password.Some? ==> k in keyslotBuffer && keyslotBuffer[k] == password.value
      ensures Asked(before, asks, k, |tries| + 1)
      decreases Rank(k), 6
    {
      hide Valid, Closed, Fit, Standing, Within, KeyDeps, FileDeps, Judge, Asking, Over, CachedFlags, Asked, Grown;
      password := GetPassword(k, cached);
      NextOffer(l, k, |tries|, old(clock), old(keyslotBuffer), password, clock, keyslotBuffer);
      RoundDone(l, tries, password);
      AskedMore(before, old(asks), asks, k, |tries|);
    }

    /** `unlock_opal`, for a partition whose keyslot's loop ends on this drive */
    method UnlockOpal(opal: Opal, p: Partition) returns (ok: bool, ghost tries: seq<Option<Secret>>)
      requires Assumed() && Valid() && p.uuid == opal.serial
      requires p.keyslot.Some? && p.keyslot.value in config.keyslots && Fit(FileDeps(p.keyslot.value))
      requires opal.wasLocked && opal.serial !in unlocked ==>
        Ends(LoopOf(p.keyslot.value, opal.passwords, true, true))
      modifies this
      ensures Valid() && Grown(old(Past()), Past())
      ensures !opal.wasLocked || opal.serial in old(unlocked) ==> ok && tries == [] && asks == old(asks)
      ensures opal.wasLocked && opal.serial !in old(unlocked) ==>
        Over(old(LoopOf(p.keyslot.value, opal.passwords, true, true)), tries, ok)
      ensures ok && opal.wasLocked && opal.serial !in old(unlocked) ==>
        && opal.serial in unlocked && opal in unlockedWith && p.keyslot.value in keyslotBuffer && tries != []
        && tries[|tries| - 1] == Some(keyslotBuffer[p.keyslot.value]) == Some(unlockedWith[opal].secret)
      ensures ok && opal.wasLocked ==> opal.serial in unlocked
      ensures Asked(old(asks), asks, p.keyslot.value, |tries|)
      decreases Rank(p.keyslot.value), 8
    {
      GrownSame(Past());
      NothingAsked(asks, p.keyslot.value);
      hide Assumed, Valid, Closed, Fit, FileDeps, LoopOf, Ends, Over, Asked, Grown, Requested;
      tries := [];
      if !opal.wasLocked || opal.serial in unlocked {
        return true, [];
      }
      ghost var secret;
      ok, secret, tries := TrySecrets(opal, p.keyslot.value);
      if ok {
        AskedRequested(old(asks), asks, Opening(p, secret), |tries|);
        RememberDrive(opal, Opening(p, secret), old(Past()));
      }
    }

    /** Keep that a drive took the secret. */
    method RememberDrive(opal: Opal, ghost o: Opening, ghost past: History)
      requires Assumed() && Valid() && o.secret in opal.passwords
      requires o.partition.uuid == opal.serial && o.partition.keyslot.Some?
      requires Grown(past, Past()) && Requested(past.asks, asks, o)
      modifies this`unlocked, this`unlockedWith
      ensures Valid() && Grown(past, Past())
      ensures unlocked == old(unlocked) + {opal.serial} && unlockedWith == old(unlockedWith)[opal := o]
    {
      UnlockedAdded(unlocked, unlockedWith, opal, o);
      GrownUnlocked(past, Past(), opal, o);
      hide Assumed, Grown, Requested, PasswordsHold, KeysHold, UnlockedHold, RootsHold;
      unlocked := unlocked + {opal.serial};
      unlockedWith := unlockedWith[opal := o];
    }

    /** The secrets for a locked drive, until one is accepted. */
    method TrySecrets(opal: Opal, k: Name) returns (ok: bool, ghost secret: Secret, ghost tries: seq<Option<Secret>>)
      requires Assumed() && Valid() && k in config.keyslots && Fit(FileDeps(k))
      requires Ends(LoopOf(k, opal.passwords, true, true))
      modifies this
      ensures Valid() && Grown(old(Past()), Past())
      ensures Over(old(LoopOf(k, opal.passwords, true, true)), tries, ok)
      ensures ok ==> secret in opal.passwords && k in keyslotBuffer && keyslotBuffer[k] == secret
      ensures ok ==> tries != [] && tries[|tries| - 1] == Some(secret)
      ensures Asked(old(asks), asks, k, |tries|)
      decreases Rank(k), 7
    {
      LoopStarts(k, opal.passwords, true, true);
      ghost var l := LoopOf(k, opal.passwords, true, true);
      hide *;
      GrownSame(Past());
      NothingAsked(asks, k);
      tries := [];
      secret := [];
      var cached := true;
      ghost var goal := EndOf(l);
      while true
        invariant Valid() && Grown(old(Past()), Past())
        invariant cached <==> tries == []
        invariant Asking(l, tries) && Standing(l, k, |tries|, clock, keyslotBuffer)
        invariant Asked(old(asks), asks, k, |tries|)
        decreases goal - |tries|
      {
        ghost var past := Past();
        var password := AskRound(k, cached, l, tries, old(asks));
        GrownChain(old(Past()), past, Past());
        JudgeIs(l, password);
        tries := tries + [password];
        if password.None? || (config.keyslots[k].File? && |password.value| != 32) {
          return false, secret, tries;
        }
        if password.value in opal.passwords {
          return true, password.value, tries;
        }
        cached := false;
      }
    }

    /** The passwords for a locked device, until one is accepted. */
    method TryPasswords(lock: Lock, k: Name)
      returns (ok: bool, ghost secret: Secret, ghost tries: seq<Option<Secret>>)
      requires Assumed() && Valid() && k in config.keyslots && Fit(FileDeps(k))
      requires Ends(LoopOf(k, lock.passwords, lock.healthy, false))
      modifies this
      ensures Valid() && Grown(old(Past()), Past())
      ensures Over(old(LoopOf(k, lock.passwords, lock.healthy, false)), tries, ok)
      ensures ok ==> lock.healthy && secret in lock.passwords
      ensures ok ==>
        k in keyslotBuffer && keyslotBuffer[k] == secret && tries != [] && tries[|tries| - 1] == Some(secret)
      ensures Asked(old(asks), asks, k, |tries|)
      decreases Rank(k), 7
    {
      LoopStarts(k, lock.passwords, lock.healthy, false);
      ghost var l := LoopOf(k, lock.passwords, lock.healthy, false);
      hide *;
      GrownSame(Past());
      NothingAsked(asks, k);
      tries := [];
      secret := [];
      var cached := true;
      ghost var goal := EndOf(l);
      while true
        invariant Valid() && Grown(old(Past()), Past())
        invariant cached <==> tries == []
        invariant Asking(l, tries)
        invariant Standing(l, k, |tries|, clock, keyslotBuffer)
        invariant Asked(old(asks), asks, k, |tries|)
        decreases goal - |tries|
      {
        ghost var past := Past();
        var password := AskRound(k, cached, l, tries, old(asks));
        GrownChain(old(Past()), past, Past());
        JudgeIs(l, password);
        tries := tries + [password];
        if password.None? || !lock.healthy {
          return false, secret, tries;
        }
        if password.value in lock.passwords {
          return true, password.value, tries;
        }
        cached := false;
      }
    }

    /** The lock part of `find_read_file_internal`, for a keyslot whose loop ends on this
        device: the master key of a device that was opened before, or passwords until one
        is accepted. With another device's master key it shows nothing. */
    method OpenLock(lock: Lock, p: Partition) returns (ok: bool, ghost tries: seq<Option<Secret>>)
      requires Assumed() && Valid() && lock in Locks() && p.uuid == lock.uuid
      requires p.keyslot.Some? && p.keyslot.value in config.keyslots
      requires lock.uuid !in masterKeyBuffer ==>
        && Fit(FileDeps(p.keyslot.value))
        && Ends(LoopOf(p.keyslot.value, lock.passwords, lock.healthy, false))
      modifies this
      ensures Valid() && Grown(old(Past()), Past())
      ensures lock.uuid in old(masterKeyBuffer) ==>
        && ok == (lock.healthy && old(masterKeyBuffer)[lock.uuid] == lock.masterKey)
        && tries == [] && asks == old(asks) && masterKeyBuffer == old(masterKeyBuffer)
      ensures lock.uuid !in old(masterKeyBuffer) ==>
        Over(old(LoopOf(p.keyslot.value, lock.passwords, lock.healthy, false)), tries, ok)
      ensures ok && lock.uuid !in old(masterKeyBuffer) ==>
        && lock in openedWith && openedWith[lock].partition == p && p.keyslot.value in keyslotBuffer && tries != []
        && tries[|tries| - 1] == Some(keyslotBuffer[p.keyslot.value]) == Some(openedWith[lock].secret)
      ensures ok ==> lock.uuid in masterKeyBuffer && masterKeyBuffer[lock.uuid] == lock.masterKey
      ensures Asked(old(asks), asks, p.keyslot.value, |tries|)
      decreases Rank(p.keyslot.value), 9
    {
      hide *;
      GrownSame(Past());
      NothingAsked(asks, p.keyslot.value);
      if lock.uuid in masterKeyBuffer {
        var masterKey := masterKeyBuffer[lock.uuid];
        return lock.healthy && masterKey == lock.masterKey, [];
      }
      ok, tries := OpenWithPassword(lock, p);
    }

    /** The passwords for a device whose master key is not cached; the key is kept. */
    method OpenWithPassword(lock: Lock, p: Partition) returns (ok: bool, ghost tries: seq<Option<Secret>>)
      requires Assumed() && Valid() && lock in Locks() && p.uuid == lock.uuid && lock.uuid !in masterKeyBuffer
      requires p.keyslot.Some? && p.keyslot.value in config.keyslots && Fit(FileDeps(p.keyslot.value))
      requires Ends(LoopOf(p.keyslot.value, lock.passwords, lock.healthy, false))
      modifies this
      ensures Valid() && Grown(old(Past()), Past())
      ensures Over(old(LoopOf(p.keyslot.value, lock.passwords, lock.healthy, false)), tries, ok)
      ensures ok ==>
        && lock in openedWith && openedWith[lock].partition == p && p.keyslot.value in keyslotBuffer && tries != []
        && tries[|tries| - 1] == Some(keyslotBuffer[p.keyslot.value]) == Some(openedWith[lock].secret)
      ensures ok ==> lock.uuid in masterKeyBuffer && masterKeyBuffer[lock.uuid] == lock.masterKey
      ensures Asked(old(asks), asks, p.keyslot.value, |tries|)
      decreases Rank(p.keyslot.value), 8
    {
      ghost var past := Past();
      assert past.masterKeys == masterKeyBuffer && past.asks == asks;
      hide *;
      ghost var secret;
      ok, secret, tries := TryPasswords(lock, p.keyslot.value);
      if ok {
        AskedRequested(past.asks, asks, Opening(p, secret), |tries|);
        Remember(lock, Opening(p, secret), past);
      }
    }

    /** Keep the master key of a device that took the secret. */
    method Remember(lock: Lock, ghost o: Opening, ghost past: History)
      requires Assumed() && Valid() && lock in Locks() && lock.healthy && o.secret in lock.passwords
      requires o.partition.uuid == lock.uuid && o.partition.keyslot.Some?
      requires Grown(past, Past()) && lock.uuid !in past.masterKeys && Requested(past.asks, asks, o)
      modifies this`masterKeyBuffer, this`openedWith
      ensures Valid() && Grown(past, Past())
      ensures masterKeyBuffer == old(masterKeyBuffer)[lock.uuid := lock.masterKey]
      ensures openedWith == old(openedWith)[lock := o]
    {
      MasterKeyAdded(masterKeyBuffer, openedWith, lock, o);
      hide Assumed, Grown, Requested, PasswordsHold, KeysHold, UnlockedHold, RootsHold, Locks;
      GrownOpened(past, Past(), lock, o);
      masterKeyBuffer := masterKeyBuffer[lock.uuid := lock.masterKey];
      openedWith := openedWith[lock := o];
    }

    /** The next partition's keyslot can be asked for, and its loop on this device ends. */
    lemma LockLoopFits(lock: Lock, parts: seq<Partition>, r: nat)
      requires Assumed() && Valid() && parts != [] && Below(parts, r) && lock in Locks()
      requires forall p | p in parts :: p in config.partitions.Values
      requires Fit(PathDeps(parts, r)) && parts[0].uuid == lock.uuid && parts[0].keyslot.Some?
      ensures var k := parts[0].keyslot.value;
        && k in config.keyslots && Rank(k) < r
        && KeyDeps(k) <= PathDeps(parts, r) && Fit(FileDeps(k))
        && Ends(LoopOf(k, lock.passwords, lock.healthy, false))
        && (Succeeds(LoopOf(k, lock.passwords, lock.healthy, false)) <==> lock.healthy)
        && (lock.uuid in masterKeyBuffer ==> masterKeyBuffer[lock.uuid] == lock.masterKey)
    {
      assert parts[0] in parts;
      var k := parts[0].keyslot.value;
      KeyRanked(k);
      FitLess(FileDeps(k), PathDeps(parts, r));
      MasterKeyFits(lock, parts[0], PathDeps(parts, r));
      if lock.healthy {
        LoopFits(k, lock.passwords, false);
      } else {
        LoopUnhealthy(k, lock.passwords);
      }
    }

    /** `find_read_file_internal` */
    method FindInternal(node: Node, parts: seq<Partition>, file: string, ghost r: nat)
      returns (content: Option<Content>)
      requires Assumed() && Valid() && Below(parts, r) && LocksOf(node) <= Locks()
      requires forall p | p in parts :: p in config.partitions.Values
      requires Fit(PathDeps(parts, r))
      modifies this
      ensures Valid() && Grown(old(Past()), Past())
      ensures content == Find(node, parts, file)
      ensures LocksOpen(Way(node, parts, file), masterKeyBuffer)
      ensures Within(old(asks), asks, PathDeps(parts, r))
      decreases r, 1, node, 0
    {
      hide Closed, Acyclic, Fit, Valid, Below, KeyDeps, FileDeps, PathDeps, LoopOf, Ends, Succeeds, Locks;
      hide Grown, LocksOpen, Way, WayAny, First, FsSight;
      GrownSame(Past());
      if parts == [] {
        WayNothing(node, file);
        NoWayNoLocks(masterKeyBuffer);
        return None;
      }
      var p := parts[0];
      assert p in parts;
      WayStep(node, parts, file);
      SuffixDeps(parts, parts[1..], r);
      if node.lvm.Some? && node.lvm.value.pvId == p.uuid {
        content := FindInAny(node.lvm.value.lvs, parts[1..], file, r);
        LocksBehind(Physical(node.lvm.value.pvId), WayAny(node.lvm.value.lvs, parts[1..], file), masterKeyBuffer);
        return;
      }
      NoWayNoLocks(masterKeyBuffer);
      if node.short {
        return None;
      }
      if node.luks.Some? && node.luks.value.lock.uuid == p.uuid {
        content := FindInLuks(node.luks.value, parts, file, r);
        NoWayNoLocks(masterKeyBuffer);
        return;
      }
      FilesHaveNoLocks(node.ext4, parts, file, masterKeyBuffer);
      FilesHaveNoLocks(node.fat, parts, file, masterKeyBuffer);
      if node.ext4.Some? && node.ext4.value.id == p.uuid {
        return Lookup(node.ext4.value, parts, file);
      }
      if node.fat.Some? && node.fat.value.id == p.uuid {
        return Lookup(node.fat.value, parts, file);
      }
      if node.gpt.Some? {
        content := FindInAny(node.gpt.value.parts, parts, file, r);
        return;
      }
      return None;
    }

    /** The branch of `find_read_file_internal` for an encrypted device of the next
        partition's name. */
    method FindInLuks(luks: Luks, parts: seq<Partition>, file: string, ghost r: nat) returns (content: Option<Content>)
      requires Assumed() && Valid() && parts != [] && Below(parts, r)
      requires luks.lock in Locks() && LocksOf(luks.inner) <= Locks() && luks.lock.uuid == parts[0].uuid
      requires forall p | p in parts :: p in config.partitions.Values
      requires Fit(PathDeps(parts, r))
      modifies this
      ensures Valid() && Grown(old(Past()), Past())
      ensures var opens := parts[0].keyslot.Some? && luks.lock.healthy;
        && content == (if opens then Find(luks.inner, parts[1..], file) else None)
        && (opens ==> LocksOpen(Behind(Encrypted(luks.lock.uuid, luks.lock), Way(luks.inner, parts[1..], file)),
                                masterKeyBuffer))
      ensures Within(old(asks), asks, PathDeps(parts, r))
      decreases r, 1, luks, 1
    {
      hide Closed, Acyclic, Fit, Valid, Below, KeyDeps, FileDeps, PathDeps, LoopOf, Ends, Succeeds, Locks;
      hide Grown, LocksOpen, Way, Find, LocksOf;
      GrownSame(Past());
      WithinSame(asks, PathDeps(parts, r));
      var p := parts[0];
      assert p in parts;
      SuffixDeps(parts, parts[1..], r);
      if p.keyslot.None? {
        return None;
      }
      LockLoopFits(luks.lock, parts, r);
      var ok, _ := OpenLock(luks.lock, p);
      if !ok {
        return None;
      }
      ghost var past := Past();
      content := FindInternal(luks.inner, parts[1..], file, r);
      WithinChain(old(asks), past.asks, asks, PathDeps(parts[1..], r), PathDeps(parts, r));
      GrownChain(old(Past()), past, Past());
      GrownPrefix(past, Past());
      LocksBehind(Encrypted(luks.lock.uuid, luks.lock), Way(luks.inner, parts[1..], file), masterKeyBuffer);
    }

    /** The loops over logical volumes and over table entries. */
    method FindInAny(nodes: seq<Node>, parts: seq<Partition>, file: string, ghost r: nat)
      returns (content: Option<Content>)
      requires Assumed() && Valid() && Below(parts, r) && LocksOfAll(nodes) <= Locks()
      requires forall p | p in parts :: p in config.partitions.Values
      requires Fit(PathDeps(parts, r))
      modifies this
      ensures Valid() && Grown(old(Past()), Past())
      ensures content == FindAny(nodes, parts, file)
      ensures LocksOpen(WayAny(nodes, parts, file), masterKeyBuffer)
      ensures Within(old(asks), asks, PathDeps(parts, r))
      decreases r, 1, nodes, 1
    {
      hide Grown, LocksOpen, Way, WayAny, Valid, Fit;
      GrownSame(Past());
      var i := 0;
      while i < |nodes|
        invariant 0 <= i <= |nodes| && Valid() && Grown(old(Past()), Past())
        invariant FindAny(nodes, parts, file) == FindAny(nodes[i..], parts, file)
        invariant WayAny(nodes, parts, file) == WayAny(nodes[i..], parts, file)
        invariant Within(old(asks), asks, PathDeps(parts, r))
      {
        assert nodes[i..][0] == nodes[i] && nodes[i..][1..] == nodes[i + 1..];
        LocksOfEach(nodes, i);
        WayAnyStep(nodes[i..], parts, file);
        FindIsFirst(nodes[i], parts, file);
        ghost var past := Past();
        content := FindInternal(nodes[i], parts, file, r);
        GrownChain(old(Past()), past, Past());
        if content.Some? {
          return;
        }
        i := i + 1;
      }
      NoWays(nodes[i..], parts, file);
      NoWayNoLocks(masterKeyBuffer);
      return None;
    }

    lemma NoWays(nodes: seq<Node>, parts: seq<Partition>, file: string)
      requires nodes == []
      ensures WayAny(nodes, parts, file) == None
    {
    }

    lemma {:induction false} SuffixDeps(parts: seq<Partition>, tail: seq<Partition>, r: nat)
      requires Assumed() && Below(parts, r) && Suffix(tail, parts)
      requires forall p | p in parts :: p in config.partitions.Values
      ensures forall p | p in tail :: p in parts
      ensures Below(tail, r)
      ensures PathDeps(tail, r) <= PathDeps(parts, r)
      ensures Fit(PathDeps(parts, r)) ==> Fit(PathDeps(tail, r))
      decreases |parts|
    {
      if |tail| < |parts| {
        SuffixDeps(parts[1..], tail, r);
        assert PathDeps(tail, r) <= PathDeps(parts, r);
      } else {
        assert tail == parts;
      }
      hide Fit, PathDeps, Below, Assumed;
      if Fit(PathDeps(parts, r)) { FitLess(PathDeps(tail, r), PathDeps(parts, r)); }
    }
  }

  function EncryptedDrive(lock: Lock): Drive {
    var inner := Node(false, None, None, None, None, None);
    Drive(None, None, false, Node(false, None, Some(Luks(lock, inner)), None, None, None))
  }

  /** Two devices of one UUID with different master keys: once the first is open, its key
      is tried on the second, which stays closed and is never asked a password, although
      it accepts the one that opened the first. */
  method ForeignKey(a: Lock, b: Lock, password: Secret) returns (first: bool, second: bool)
    requires a.uuid == b.uuid && a.masterKey != b.masterKey && a.healthy && b.healthy
    requires password in a.passwords && password in b.passwords
    ensures first && !second
  {
    var partition := Partition("p", a.uuid, None, Some("k"));
    var config := Config(map["p" := partition], map["k" := Stdin]);
    var g := new Greeter(config, [EncryptedDrive(a), EncryptedDrive(b)], _ => password);
    BothLocks(g, a, b);
    OneKeyslot(g);
    FirstLoop(g, a, password);
    assert g.masterKeyBuffer == map[];
    hide *;
    ghost var l, tries := g.LoopOf("k", a.passwords, true, false), [];
    first, tries := g.OpenLock(a, partition);
    OverSucceeds(l, tries, first);
    second, tries := g.OpenLock(b, partition);
  }

  lemma FirstLoop(g: Greeter, a: Lock, password: Secret)
    requires g.config.keyslots == map["k" := Stdin] && g.Assumed() && g.Valid()
    requires g.typed(g.clock) == password && password in a.passwords
    ensures Ends(g.LoopOf("k", a.passwords, true, false)) && Succeeds(g.LoopOf("k", a.passwords, true, false))
  {
    g.LoopEnds("k", a.passwords, false);
  }

  lemma OverSucceeds(l: Loop, tries: seq<Option<Secret>>, ok: bool)
    requires Over(l, tries, ok)
    ensures ok <==> Succeeds(l)
  {
  }

  lemma BothLocks(g: Greeter, a: Lock, b: Lock)
    requires g.drives == [EncryptedDrive(a), EncryptedDrive(b)]
    ensures a in g.Locks() && b in g.Locks()
  {
    assert EncryptedDrive(a) in g.drives && EncryptedDrive(b) in g.drives;
    assert a in LocksOf(EncryptedDrive(a).root) && b in LocksOf(EncryptedDrive(b).root);
  }

  lemma OneKeyslot(g: Greeter)
    requires g.config.keyslots == map["k" := Stdin]
    requires exists u :: g.config.partitions == map["p" := Partition("p", u, None, Some("k"))]
    ensures g.Assumed() && g.Fit(g.FileDeps("k"))
  {
    assert Climb(g.config, "p", |g.config.partitions|) == Some(["p"]);
    forall path: seq<Name> ensures !Cycle(g.Needs(), path) {
      if |path| >= 2 { assert !Step(g.Needs(), path[0], path[1]); }
    }
    assert g.FileDeps("k") == {};
  }
}
