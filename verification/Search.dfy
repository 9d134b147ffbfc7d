/** The search of a storage tree for a file behind a list of partitions
    (src/main.rs:460-667). */
module Search {
  import opened Streams
  import opened Config

  type Content = seq<byte>

  /** What a device shows to the five probes; a real device is usually of one kind. */
  datatype Node = Node(
    short: bool,
    lvm: Option<Lvm>,
    luks: Option<Luks>,
    ext4: Option<Fs>,
    fat: Option<Fs>,
    gpt: Option<Gpt>)

  datatype Lvm = Lvm(pvId: string, lvs: seq<Node>)

  datatype Gpt = Gpt(parts: seq<Node>)

  /** An encrypted device: its lock, and what is inside once it is open. */
  datatype Luks = Luks(lock: Lock, inner: Node)

  /** `healthy` is false where opening fails for another reason than the password. */
  datatype Lock = Lock(uuid: string, passwords: set<seq<byte>>, masterKey: seq<byte>, healthy: bool)

  datatype Fs = Fs(id: string, files: map<string, Content>)

  function Lookup(fs: Fs, parts: seq<Partition>, file: string): Option<Content> {
    if |parts| == 1 && file in fs.files then Some(fs.files[file]) else None
  }

  /** `find_read_file_internal`, given that every healthy lock with a keyslot opens. */
  function Find(node: Node, parts: seq<Partition>, file: string): Option<Content>
    decreases node, 0
  {
    if parts == [] then None
    else
      var p := parts[0];
      if node.lvm.Some? && node.lvm.value.pvId == p.uuid then
        FindAny(node.lvm.value.lvs, parts[1..], file)
      else if node.short then None
      else if node.luks.Some? && node.luks.value.lock.uuid == p.uuid then
        if p.keyslot.None? || !node.luks.value.lock.healthy then None
        else Find(node.luks.value.inner, parts[1..], file)
      else if node.ext4.Some? && node.ext4.value.id == p.uuid then Lookup(node.ext4.value, parts, file)
      else if node.fat.Some? && node.fat.value.id == p.uuid then Lookup(node.fat.value, parts, file)
      else if node.gpt.Some? then FindAny(node.gpt.value.parts, parts, file)
      else None
  }

  /** The first of several devices that has the file. */
  function FindAny(nodes: seq<Node>, parts: seq<Partition>, file: string): Option<Content>
    decreases nodes, 1
  {
    if nodes == [] then None
    else
      match Find(nodes[0], parts, file)
      case Some(content) => Some(content)
      case None => FindAny(nodes[1..], parts, file)
  }

  // ----- branches -----

  /** One level of storage on the way to a filesystem. */
  datatype Hop = Physical(id: string) | Encrypted(id: string, lock: Lock) | Filesystem(id: string)

  datatype Branch = Branch(hops: seq<Hop>, files: map<string, Content>)

  /** All ways down to a filesystem, depth first and in probing order; partition tables
      are no level of their own, and a lock that cannot be opened leads nowhere. */
  function Branches(node: Node): seq<Branch>
    decreases node, 1
  {
    LvmBranches(node) + LuksBranches(node) + FsBranches(node.ext4) + FsBranches(node.fat) + GptBranches(node)
  }

  function LvmBranches(node: Node): seq<Branch>
    decreases node, 0
  {
    if node.lvm.Some? then Under(Physical(node.lvm.value.pvId), BranchesOfAll(node.lvm.value.lvs)) else []
  }

  function LuksBranches(node: Node): seq<Branch>
    decreases node, 0
  {
    if node.luks.Some? && node.luks.value.lock.healthy then
      Under(Encrypted(node.luks.value.lock.uuid, node.luks.value.lock), Branches(node.luks.value.inner))
    else []
  }

  function GptBranches(node: Node): seq<Branch>
    decreases node, 0
  {
    if node.gpt.Some? then BranchesOfAll(node.gpt.value.parts) else []
  }

  function BranchesOfAll(nodes: seq<Node>): seq<Branch>
    decreases nodes, 1
  {
    if nodes == [] then [] else Branches(nodes[0]) + BranchesOfAll(nodes[1..])
  }

  function FsBranches(fs: Option<Fs>): seq<Branch> {
    if fs.Some? then [Branch([Filesystem(fs.value.id)], fs.value.files)] else []
  }

  function Under(hop: Hop, branches: seq<Branch>): seq<Branch> {
    if branches == [] then []
    else [Branch([hop] + branches[0].hops, branches[0].files)] + Under(hop, branches[1..])
  }

  /** The partition names this level; an encrypted one also needs a keyslot. */
  predicate Names(hop: Hop, p: Partition) {
    hop.id == p.uuid && (hop.Encrypted? ==> p.keyslot.Some?)
  }

  /** The branch carries the partitions in order and ends in the file. */
  predicate Carries(b: Branch, parts: seq<Partition>, file: string) {
    && |b.hops| == |parts|
    && (forall i | 0 <= i < |parts| :: Names(b.hops[i], parts[i]))
    && file in b.files
  }

  // ----- what the probes see -----

  /** A branch, and whether the search for a list of partitions can see it. */
  datatype Seen = Seen(branch: Branch, visible: bool)

  function Tail(parts: seq<Partition>): seq<Partition> {
    if parts == [] then [] else parts[1..]
  }

  /** The probe answers to the next partition's name, so no later probe is made. */
  predicate Claims(id: Option<string>, parts: seq<Partition>) {
    parts != [] && id == Some(parts[0].uuid)
  }

  function LvmId(node: Node): Option<string> {
    if node.lvm.Some? then Some(node.lvm.value.pvId) else None
  }

  function LuksId(node: Node): Option<string> {
    if node.luks.Some? then Some(node.luks.value.lock.uuid) else None
  }

  function FsId(fs: Option<Fs>): Option<string> {
    if fs.Some? then Some(fs.value.id) else None
  }

  /** Out of sight when `hidden`. */
  function Shade(hidden: bool, s: seq<Seen>): (r: seq<Seen>)
    ensures |r| == |s|
    ensures forall i | 0 <= i < |s| :: r[i] == Seen(s[i].branch, s[i].visible && !hidden)
  {
    seq(|s|, i requires 0 <= i < |s| => Seen(s[i].branch, s[i].visible && !hidden))
  }

  function SeenUnder(hop: Hop, s: seq<Seen>): (r: seq<Seen>)
    ensures |r| == |s|
    ensures forall i | 0 <= i < |s| :: r[i] == Seen(Branch([hop] + s[i].branch.hops, s[i].branch.files), s[i].visible)
  {
    seq(|s|, i requires 0 <= i < |s| => Seen(Branch([hop] + s[i].branch.hops, s[i].branch.files), s[i].visible))
  }

  function FsSight(fs: Option<Fs>): seq<Seen> {
    if fs.Some? then [Seen(Branch([Filesystem(fs.value.id)], fs.value.files), true)] else []
  }

  /** A probe before the encryption header, the filesystems and the partition table
      claims the next partition, or the device is too short to go on. */
  predicate AfterLvm(node: Node, parts: seq<Partition>) {
    Claims(LvmId(node), parts) || node.short
  }

  predicate AfterLuks(node: Node, parts: seq<Partition>) {
    AfterLvm(node, parts) || Claims(LuksId(node), parts)
  }

  predicate AfterExt4(node: Node, parts: seq<Partition>) {
    AfterLuks(node, parts) || Claims(FsId(node.ext4), parts)
  }

  predicate AfterFat(node: Node, parts: seq<Partition>) {
    AfterExt4(node, parts) || Claims(FsId(node.fat), parts)
  }

  /** All branches of a device with what hides them from a search: a branch lies behind
      an earlier probe that claims the next partition, or behind the header read of a
      device too short for it. */
  function Sight(node: Node, parts: seq<Partition>): seq<Seen>
    decreases node, 1
  {
    LvmSight(node, parts)
    + Shade(AfterLvm(node, parts), LuksSight(node, parts))
    + Shade(AfterLuks(node, parts), FsSight(node.ext4))
    + Shade(AfterExt4(node, parts), FsSight(node.fat))
    + Shade(AfterFat(node, parts), GptSight(node, parts))
  }

  function LvmSight(node: Node, parts: seq<Partition>): seq<Seen>
    decreases node, 0
  {
    if node.lvm.Some? then SeenUnder(Physical(node.lvm.value.pvId), SightOfAll(node.lvm.value.lvs, Tail(parts))) else []
  }

  function LuksSight(node: Node, parts: seq<Partition>): seq<Seen>
    decreases node, 0
  {
    if node.luks.Some? && node.luks.value.lock.healthy then
      SeenUnder(Encrypted(node.luks.value.lock.uuid, node.luks.value.lock), Sight(node.luks.value.inner, Tail(parts)))
    else []
  }

  function GptSight(node: Node, parts: seq<Partition>): seq<Seen>
    decreases node, 0
  {
    if node.gpt.Some? then SightOfAll(node.gpt.value.parts, parts) else []
  }

  function SightOfAll(nodes: seq<Node>, parts: seq<Partition>): seq<Seen>
    decreases nodes, 1
  {
    if nodes == [] then [] else Sight(nodes[0], parts) + SightOfAll(nodes[1..], parts)
  }

  predicate Hit(s: Seen, parts: seq<Partition>, file: string) {
    s.visible && Carries(s.branch, parts, file)
  }

  /** The first branch in sight that carries the file. */
  function First(s: seq<Seen>, parts: seq<Partition>, file: string): (r: Option<Branch>)
    ensures r.Some? ==> Carries(r.value, parts, file)
  {
    if s == [] then None
    else if Hit(s[0], parts, file) then Some(s[0].branch)
    else First(s[1..], parts, file)
  }

  /** The branch one level further out. */
  function Behind(hop: Hop, b: Option<Branch>): Option<Branch> {
    if b.None? then None else Some(Branch([hop] + b.value.hops, b.value.files))
  }

  function ContentOf(b: Option<Branch>, file: string): Option<Content>
    requires b.Some? ==> file in b.value.files
  {
    if b.None? then None else Some(b.value.files[file])
  }

  lemma {:induction false} FirstConcat(a: seq<Seen>, b: seq<Seen>, parts: seq<Partition>, file: string)
    ensures First(a + b, parts, file)
      == if First(a, parts, file).Some? then First(a, parts, file) else First(b, parts, file)
  {
    if a == [] {
      assert a + b == b;
    } else {
      assert (a + b)[1..] == a[1..] + b;
      FirstConcat(a[1..], b, parts, file);
    }
  }

  lemma {:induction false} FirstShade(hidden: bool, s: seq<Seen>, parts: seq<Partition>, file: string)
    ensures First(Shade(hidden, s), parts, file) == if hidden then None else First(s, parts, file)
  {
    if s != [] {
      assert Shade(hidden, s)[1..] == Shade(hidden, s[1..]);
      FirstShade(hidden, s[1..], parts, file);
    }
  }

  lemma {:induction false} FirstUnder(hop: Hop, s: seq<Seen>, parts: seq<Partition>, file: string)
    ensures First(SeenUnder(hop, s), parts, file)
      == if parts != [] && Names(hop, parts[0]) then Behind(hop, First(s, Tail(parts), file)) else None
  {
    if s != [] {
      if parts != [] {
        CarriesUnder(hop, s[0].branch, parts, file);
      }
      assert SeenUnder(hop, s)[1..] == SeenUnder(hop, s[1..]);
      FirstUnder(hop, s[1..], parts, file);
    }
  }

  lemma CarriesUnder(hop: Hop, b: Branch, parts: seq<Partition>, file: string)
    requires parts != []
    ensures Carries(Branch([hop] + b.hops, b.files), parts, file)
      <==> Names(hop, parts[0]) && Carries(b, parts[1..], file)
  {
    var u := Branch([hop] + b.hops, b.files);
    if Carries(u, parts, file) {
      forall i | 0 <= i < |parts[1..]| ensures Names(b.hops[i], parts[1..][i]) {
        assert Names(u.hops[i + 1], parts[i + 1]);
      }
      assert Names(u.hops[0], parts[0]);
    }
    if Names(hop, parts[0]) && Carries(b, parts[1..], file) {
      forall i | 0 <= i < |parts| ensures Names(u.hops[i], parts[i]) {
        if i > 0 { assert Names(b.hops[i - 1], parts[1..][i - 1]); }
      }
    }
  }

  lemma FirstFs(fs: Option<Fs>, parts: seq<Partition>, file: string)
    ensures First(FsSight(fs), parts, file)
      == if Claims(FsId(fs), parts) && Lookup(fs.value, parts, file).Some?
         then Some(Branch([Filesystem(fs.value.id)], fs.value.files)) else None
  {
    if fs.Some? {
      var b := Branch([Filesystem(fs.value.id)], fs.value.files);
      assert FsSight(fs)[1..] == [];
      assert Carries(b, parts, file) <==> |parts| == 1 && Names(b.hops[0], parts[0]) && file in fs.value.files;
    }
  }

  /** The first of the branches in sight that carries the file. */
  predicate FirstHit(s: seq<Seen>, parts: seq<Partition>, file: string, i: nat) {
    i < |s| && Hit(s[i], parts, file) && forall j | 0 <= j < i :: !Hit(s[j], parts, file)
  }

  /** `First` finds what is there, and the first of it. */
  lemma {:induction false} FirstIsFirst(s: seq<Seen>, parts: seq<Partition>, file: string)
    ensures First(s, parts, file).Some? <==> exists i: nat :: FirstHit(s, parts, file, i)
    ensures forall i: nat | FirstHit(s, parts, file, i) :: First(s, parts, file) == Some(s[i].branch)
    ensures First(s, parts, file).None? ==> forall i | 0 <= i < |s| :: !Hit(s[i], parts, file)
  {
    if s != [] && Hit(s[0], parts, file) {
      assert FirstHit(s, parts, file, 0);
    } else if s != [] {
      var rest := s[1..];
      FirstIsFirst(rest, parts, file);
      forall i: nat | FirstHit(s, parts, file, i)
        ensures First(s, parts, file) == Some(s[i].branch)
      {
        assert forall j | 0 <= j < i - 1 :: rest[j] == s[j + 1];
        assert FirstHit(rest, parts, file, i - 1);
      }
      if First(rest, parts, file).Some? {
        var i: nat :| FirstHit(rest, parts, file, i);
        assert forall j | 0 < j < i + 1 :: s[j] == rest[j - 1];
        assert FirstHit(s, parts, file, i + 1);
      } else {
        assert forall j | 0 < j < |s| :: s[j] == rest[j - 1];
      }
    }
  }

  /** The first hit of a device is the first of its pieces that has one. */
  lemma FirstOfSight(node: Node, parts: seq<Partition>, file: string)
    ensures var l := First(LvmSight(node, parts), parts, file);
      var e := First(LuksSight(node, parts), parts, file);
      var x := First(FsSight(node.ext4), parts, file);
      var f := First(FsSight(node.fat), parts, file);
      First(Sight(node, parts), parts, file) ==
        if l.Some? then l
        else if !AfterLvm(node, parts) && e.Some? then e
        else if !AfterLuks(node, parts) && x.Some? then x
        else if !AfterExt4(node, parts) && f.Some? then f
        else if !AfterFat(node, parts) then First(GptSight(node, parts), parts, file)
        else None
  {
    hide First, Shade, FsSight, LvmSight, LuksSight, GptSight, AfterLvm, AfterLuks, AfterExt4, AfterFat;
    var l := LvmSight(node, parts);
    var e := Shade(AfterLvm(node, parts), LuksSight(node, parts));
    var x := Shade(AfterLuks(node, parts), FsSight(node.ext4));
    var f := Shade(AfterExt4(node, parts), FsSight(node.fat));
    var g := Shade(AfterFat(node, parts), GptSight(node, parts));
    FirstConcat(l + e + x + f, g, parts, file);
    FirstConcat(l + e + x, f, parts, file);
    FirstConcat(l + e, x, parts, file);
    FirstConcat(l, e, parts, file);
    FirstShade(AfterLvm(node, parts), LuksSight(node, parts), parts, file);
    FirstShade(AfterLuks(node, parts), FsSight(node.ext4), parts, file);
    FirstShade(AfterExt4(node, parts), FsSight(node.fat), parts, file);
    FirstShade(AfterFat(node, parts), GptSight(node, parts), parts, file);
  }

  /** The branch on which the search of a device ends. */
  function Way(node: Node, parts: seq<Partition>, file: string): (r: Option<Branch>)
    ensures r.Some? ==> Carries(r.value, parts, file)
  {
    First(Sight(node, parts), parts, file)
  }

  function WayAny(nodes: seq<Node>, parts: seq<Partition>, file: string): (r: Option<Branch>)
    ensures r.Some? ==> Carries(r.value, parts, file)
  {
    First(SightOfAll(nodes, parts), parts, file)
  }

  /** The first probe that claims the next partition decides where it goes on. */
  lemma WayStep(node: Node, parts: seq<Partition>, file: string)
    requires parts != []
    ensures Way(node, parts, file)
      == if Claims(LvmId(node), parts) then
           Behind(Physical(node.lvm.value.pvId), WayAny(node.lvm.value.lvs, parts[1..], file))
         else if node.short then None
         else if Claims(LuksId(node), parts) then
           (if parts[0].keyslot.None? || !node.luks.value.lock.healthy then None
            else Behind(Encrypted(node.luks.value.lock.uuid, node.luks.value.lock),
                        Way(node.luks.value.inner, parts[1..], file)))
         else if Claims(FsId(node.ext4), parts) then First(FsSight(node.ext4), parts, file)
         else if Claims(FsId(node.fat), parts) then First(FsSight(node.fat), parts, file)
         else if node.gpt.Some? then WayAny(node.gpt.value.parts, parts, file)
         else None
  {
    FirstOfSight(node, parts, file);
    FirstFs(node.ext4, parts, file);
    FirstFs(node.fat, parts, file);
    FirstOfNothing([], parts, file);
    if node.lvm.Some? {
      FirstUnder(Physical(node.lvm.value.pvId), SightOfAll(node.lvm.value.lvs, Tail(parts)), parts, file);
    }
    if node.luks.Some? {
      FirstUnder(Encrypted(node.luks.value.lock.uuid, node.luks.value.lock),
                 Sight(node.luks.value.inner, Tail(parts)), parts, file);
    }
    hide First, Sight, SightOfAll, FsSight, SeenUnder, Lookup, Carries;
  }

  lemma WayNothing(node: Node, file: string)
    ensures Way(node, [], file) == None
  {
    if Way(node, [], file).Some? {
      FirstIsFirst(Sight(node, []), [], file);
      SightOfBranches(node, []);
      var i: nat :| FirstHit(Sight(node, []), [], file, i);
      HopsNonempty(node);
    }
  }

  predicate NoEmptyBranch(bs: seq<Branch>) {
    forall b | b in bs :: b.hops != []
  }

  lemma NonemptyUnder(hop: Hop, bs: seq<Branch>)
    ensures NoEmptyBranch(Under(hop, bs))
  {
    UnderEach(hop, bs);
  }

  /** Every branch ends in a filesystem. */
  lemma {:induction false} HopsNonempty(node: Node)
    ensures NoEmptyBranch(Branches(node))
  {
    if node.lvm.Some? { NonemptyUnder(Physical(node.lvm.value.pvId), BranchesOfAll(node.lvm.value.lvs)); }
    if node.luks.Some? {
      NonemptyUnder(Encrypted(node.luks.value.lock.uuid, node.luks.value.lock), Branches(node.luks.value.inner));
    }
    if node.gpt.Some? { HopsNonemptyAll(node.gpt.value.parts); }
    assert NoEmptyBranch(LvmBranches(node)) && NoEmptyBranch(LuksBranches(node));
    assert NoEmptyBranch(FsBranches(node.ext4)) && NoEmptyBranch(FsBranches(node.fat));
    assert NoEmptyBranch(GptBranches(node));
    hide LvmBranches, LuksBranches, FsBranches, GptBranches;
  }

  lemma {:induction false} HopsNonemptyAll(nodes: seq<Node>)
    ensures NoEmptyBranch(BranchesOfAll(nodes))
    decreases nodes, 1
  {
    if nodes != [] {
      HopsNonempty(nodes[0]);
      HopsNonemptyAll(nodes[1..]);
    }
  }

  /** On any device the search returns exactly the first branch in sight, in depth-first
      order, that carries the remaining partitions and the file. */
  lemma {:induction false} FindIsFirst(node: Node, parts: seq<Partition>, file: string)
    ensures Find(node, parts, file) == ContentOf(Way(node, parts, file), file)
    decreases node, 0
  {
    if parts == [] {
      WayNothing(node, file);
    } else {
      WayStep(node, parts, file);
      FirstFs(node.ext4, parts, file);
      FirstFs(node.fat, parts, file);
      hide First, Sight, Way, WayAny, FsSight, Carries;
      if node.lvm.Some? { FindAnyIsFirst(node.lvm.value.lvs, parts[1..], file); }
      if node.luks.Some? { FindIsFirst(node.luks.value.inner, parts[1..], file); }
      if node.gpt.Some? { FindAnyIsFirst(node.gpt.value.parts, parts, file); }
    }
  }

  lemma FirstOfNothing(s: seq<Seen>, parts: seq<Partition>, file: string)
    requires s == []
    ensures First(s, parts, file) == None
  {
  }

  lemma {:induction false} FindAnyIsFirst(nodes: seq<Node>, parts: seq<Partition>, file: string)
    ensures FindAny(nodes, parts, file) == ContentOf(WayAny(nodes, parts, file), file)
    decreases nodes, 1
  {
    if nodes != [] {
      FindIsFirst(nodes[0], parts, file);
      FindAnyIsFirst(nodes[1..], parts, file);
      WayAnyStep(nodes, parts, file);
    }
  }

  lemma WayAnyStep(nodes: seq<Node>, parts: seq<Partition>, file: string)
    requires nodes != []
    ensures WayAny(nodes, parts, file)
      == if Way(nodes[0], parts, file).Some? then Way(nodes[0], parts, file) else WayAny(nodes[1..], parts, file)
  {
    FirstConcat(Sight(nodes[0], parts), SightOfAll(nodes[1..], parts), parts, file);
  }

  // ----- all branches and the ones in sight -----

  predicate SameBranches(s: seq<Seen>, bs: seq<Branch>) {
    |s| == |bs| && forall i | 0 <= i < |s| :: s[i].branch == bs[i]
  }

  lemma SameConcat(s: seq<Seen>, t: seq<Seen>, bs: seq<Branch>, cs: seq<Branch>)
    requires SameBranches(s, bs) && SameBranches(t, cs)
    ensures SameBranches(s + t, bs + cs)
  {
  }

  lemma SameShade(hidden: bool, s: seq<Seen>, bs: seq<Branch>)
    requires SameBranches(s, bs)
    ensures SameBranches(Shade(hidden, s), bs)
  {
  }

  lemma SameUnder(hop: Hop, s: seq<Seen>, bs: seq<Branch>)
    requires SameBranches(s, bs)
    ensures SameBranches(SeenUnder(hop, s), Under(hop, bs))
  {
    UnderEach(hop, bs);
  }

  lemma SameFs(fs: Option<Fs>)
    ensures SameBranches(FsSight(fs), FsBranches(fs))
  {
  }

  /** Sight lists exactly the branches, in the same order. */
  lemma {:induction false} SightOfBranches(node: Node, parts: seq<Partition>)
    ensures SameBranches(Sight(node, parts), Branches(node))
    decreases node, 1
  {
    LvmSightBranches(node, parts);
    LuksSightBranches(node, parts);
    SameFs(node.ext4);
    SameFs(node.fat);
    GptSightBranches(node, parts);
    SamePieces(node, parts);
  }

  lemma SamePieces(node: Node, parts: seq<Partition>)
    requires SameBranches(LvmSight(node, parts), LvmBranches(node))
    requires SameBranches(LuksSight(node, parts), LuksBranches(node))
    requires SameBranches(FsSight(node.ext4), FsBranches(node.ext4))
    requires SameBranches(FsSight(node.fat), FsBranches(node.fat))
    requires SameBranches(GptSight(node, parts), GptBranches(node))
    ensures SameBranches(Sight(node, parts), Branches(node))
  {
    hide SameBranches, Shade, FsSight, LvmSight, LuksSight, GptSight, AfterLvm, AfterLuks, AfterExt4, AfterFat;
    hide LvmBranches, LuksBranches, GptBranches, FsBranches;
    var l, bl := LvmSight(node, parts), LvmBranches(node);
    var e, be := Shade(AfterLvm(node, parts), LuksSight(node, parts)), LuksBranches(node);
    var x, bx := Shade(AfterLuks(node, parts), FsSight(node.ext4)), FsBranches(node.ext4);
    var f, bf := Shade(AfterExt4(node, parts), FsSight(node.fat)), FsBranches(node.fat);
    var g, bg := Shade(AfterFat(node, parts), GptSight(node, parts)), GptBranches(node);
    SameShade(AfterLvm(node, parts), LuksSight(node, parts), be);
    SameShade(AfterLuks(node, parts), FsSight(node.ext4), bx);
    SameShade(AfterExt4(node, parts), FsSight(node.fat), bf);
    SameShade(AfterFat(node, parts), GptSight(node, parts), bg);
    SameConcat(l, e, bl, be);
    SameConcat(l + e, x, bl + be, bx);
    SameConcat(l + e + x, f, bl + be + bx, bf);
    SameConcat(l + e + x + f, g, bl + be + bx + bf, bg);
  }

  lemma {:induction false} LvmSightBranches(node: Node, parts: seq<Partition>)
    ensures SameBranches(LvmSight(node, parts), LvmBranches(node))
    decreases node, 0
  {
    if node.lvm.Some? {
      var lvs := node.lvm.value.lvs;
      SightOfAllBranches(lvs, Tail(parts));
      SameUnder(Physical(node.lvm.value.pvId), SightOfAll(lvs, Tail(parts)), BranchesOfAll(lvs));
    }
  }

  lemma {:induction false} LuksSightBranches(node: Node, parts: seq<Partition>)
    ensures SameBranches(LuksSight(node, parts), LuksBranches(node))
    decreases node, 0
  {
    if node.luks.Some? {
      var inner := node.luks.value.inner;
      SightOfBranches(inner, Tail(parts));
      SameUnder(Encrypted(node.luks.value.lock.uuid, node.luks.value.lock), Sight(inner, Tail(parts)), Branches(inner));
    }
  }

  lemma {:induction false} GptSightBranches(node: Node, parts: seq<Partition>)
    ensures SameBranches(GptSight(node, parts), GptBranches(node))
    decreases node, 0
  {
    if node.gpt.Some? {
      SightOfAllBranches(node.gpt.value.parts, parts);
    }
  }

  lemma {:induction false} SightOfAllBranches(nodes: seq<Node>, parts: seq<Partition>)
    ensures SameBranches(SightOfAll(nodes, parts), BranchesOfAll(nodes))
    decreases nodes, 1
  {
    if nodes != [] {
      SightOfBranches(nodes[0], parts);
      SightOfAllBranches(nodes[1..], parts);
      SameConcat(Sight(nodes[0], parts), SightOfAll(nodes[1..], parts), Branches(nodes[0]), BranchesOfAll(nodes[1..]));
    }
  }

  lemma {:induction false} UnderEach(hop: Hop, branches: seq<Branch>)
    ensures |Under(hop, branches)| == |branches|
    ensures forall i | 0 <= i < |branches| ::
      Under(hop, branches)[i] == Branch([hop] + branches[i].hops, branches[i].files)
  {
    if branches != [] { UnderEach(hop, branches[1..]); }
  }

  /** Branch `i` of the device is in sight of a search for `parts`. */
  predicate InSight(node: Node, parts: seq<Partition>, i: nat) {
    i < |Sight(node, parts)| && Sight(node, parts)[i].visible
  }

  /** Branch `i` of the device carries the partitions and the file. */
  predicate CarriedAt(node: Node, parts: seq<Partition>, file: string, i: nat) {
    i < |Branches(node)| && Carries(Branches(node)[i], parts, file)
  }

  /** Branch `i` is what a search for the file behind `parts` can end in. */
  predicate Leads(node: Node, parts: seq<Partition>, file: string, i: nat) {
    InSight(node, parts, i) && CarriedAt(node, parts, file, i)
  }

  predicate FirstLead(node: Node, parts: seq<Partition>, file: string, i: nat) {
    Leads(node, parts, file, i) && forall j: nat | j < i :: !Leads(node, parts, file, j)
  }

  /** On any device a file is found exactly when a branch in sight carries the partitions,
      and it is the file of the first such branch: a carrying branch is missed exactly
      when it is hidden or comes later. */
  lemma FindExact(node: Node, parts: seq<Partition>, file: string)
    ensures Find(node, parts, file).Some? <==> exists i: nat :: Leads(node, parts, file, i)
    ensures Find(node, parts, file).Some? <==> exists i: nat :: FirstLead(node, parts, file, i)
    ensures forall i: nat | FirstLead(node, parts, file, i) ::
      Find(node, parts, file) == Some(Branches(node)[i].files[file])
    ensures forall i: nat | FirstLead(node, parts, file, i) :: Way(node, parts, file) == Some(Branches(node)[i])
  {
    FindIsFirst(node, parts, file);
    FirstIsFirst(Sight(node, parts), parts, file);
    SightOfBranches(node, parts);
    var s := Sight(node, parts);
    hide Branches, Sight, Find, First, Carries;
    assert forall i: nat :: Leads(node, parts, file, i) <==> i < |s| && Hit(s[i], parts, file);
    assert forall i: nat :: FirstLead(node, parts, file, i) <==> FirstHit(s, parts, file, i);
    if Find(node, parts, file).Some? {
      var i: nat :| FirstHit(s, parts, file, i);
      assert FirstLead(node, parts, file, i);
      assert Leads(node, parts, file, i);
    }
  }

  /** A device answers one kind of probe only, and one too short for the 4096-byte
      header read is a physical volume or nothing. */
  predicate OneKind(node: Node)
    decreases node, 0
  {
    && (node.lvm.Some? ==> node.luks.None? && node.ext4.None? && node.fat.None? && node.gpt.None?)
    && (node.luks.Some? ==> node.ext4.None? && node.fat.None? && node.gpt.None?)
    && (node.ext4.Some? ==> node.fat.None? && node.gpt.None?)
    && (node.fat.Some? ==> node.gpt.None?)
    && (node.short ==> node.luks.None? && node.ext4.None? && node.fat.None? && node.gpt.None?)
    && (node.lvm.Some? ==> AllOneKind(node.lvm.value.lvs))
    && (node.luks.Some? ==> OneKind(node.luks.value.inner))
    && (node.gpt.Some? ==> AllOneKind(node.gpt.value.parts))
  }

  predicate AllOneKind(nodes: seq<Node>)
    decreases nodes, 1
  {
    nodes == [] || (OneKind(nodes[0]) && AllOneKind(nodes[1..]))
  }

  predicate AllVisible(s: seq<Seen>) {
    forall i | 0 <= i < |s| :: s[i].visible
  }

  /** Devices of one kind hide nothing. */
  lemma {:induction false} OneKindInSight(node: Node, parts: seq<Partition>)
    requires OneKind(node)
    ensures AllVisible(Sight(node, parts))
    decreases node, 0
  {
    if node.lvm.Some? {
      AllOneKindInSight(node.lvm.value.lvs, Tail(parts));
    }
    if node.luks.Some? {
      OneKindInSight(node.luks.value.inner, Tail(parts));
    }
    if node.gpt.Some? {
      AllOneKindInSight(node.gpt.value.parts, parts);
    }
    PiecesInSight(node, parts);
  }

  lemma PiecesInSight(node: Node, parts: seq<Partition>)
    requires OneKind(node)
    requires node.lvm.Some? ==> AllVisible(SightOfAll(node.lvm.value.lvs, Tail(parts)))
    requires node.luks.Some? ==> AllVisible(Sight(node.luks.value.inner, Tail(parts)))
    requires node.gpt.Some? ==> AllVisible(SightOfAll(node.gpt.value.parts, parts))
    ensures AllVisible(Sight(node, parts))
  {
    var l := LvmSight(node, parts);
    var e := Shade(AfterLvm(node, parts), LuksSight(node, parts));
    var x := Shade(AfterLuks(node, parts), FsSight(node.ext4));
    var f := Shade(AfterExt4(node, parts), FsSight(node.fat));
    var g := Shade(AfterFat(node, parts), GptSight(node, parts));
    assert AllVisible(l);
    assert AllVisible(e);
    assert AllVisible(x);
    assert AllVisible(f);
    assert AllVisible(g);
    hide Shade, FsSight, LvmSight, LuksSight, GptSight, AfterLvm, AfterLuks, AfterExt4, AfterFat, OneKind, AllOneKind;
    assert AllVisible(l + e);
    assert AllVisible(l + e + x);
    assert AllVisible(l + e + x + f);
    assert AllVisible(l + e + x + f + g);
  }

  lemma {:induction false} AllOneKindInSight(nodes: seq<Node>, parts: seq<Partition>)
    requires AllOneKind(nodes)
    ensures AllVisible(SightOfAll(nodes, parts))
    decreases nodes, 1
  {
    if nodes != [] {
      OneKindInSight(nodes[0], parts);
      AllOneKindInSight(nodes[1..], parts);
    }
  }

  lemma LeadsOneKind(node: Node, parts: seq<Partition>, file: string, i: nat)
    requires OneKind(node)
    ensures Leads(node, parts, file, i) <==> CarriedAt(node, parts, file, i)
  {
    OneKindInSight(node, parts);
    SightOfBranches(node, parts);
    hide OneKind, Branches, Sight, CarriedAt;
    if i < |Branches(node)| { assert Sight(node, parts)[i].visible; }
    CarriedInside(node, parts, file, i);
  }

  lemma CarriedInside(node: Node, parts: seq<Partition>, file: string, i: nat)
    ensures CarriedAt(node, parts, file, i) ==> i < |Branches(node)|
  {
  }

  predicate FirstCarried(node: Node, parts: seq<Partition>, file: string, i: nat) {
    CarriedAt(node, parts, file, i) && forall j: nat | j < i :: !CarriedAt(node, parts, file, j)
  }

  /** On devices of one kind a file is found exactly when any branch carries it. */
  lemma FindOneKind(node: Node, parts: seq<Partition>, file: string)
    requires OneKind(node)
    ensures Find(node, parts, file).Some? <==> exists i: nat :: CarriedAt(node, parts, file, i)
    ensures forall i: nat | FirstCarried(node, parts, file, i) ::
      Find(node, parts, file) == Some(Branches(node)[i].files[file])
  {
    FindExact(node, parts, file);
    forall i: nat ensures Leads(node, parts, file, i) <==> CarriedAt(node, parts, file, i) {
      LeadsOneKind(node, parts, file, i);
    }
    hide Find, Branches, OneKind, Leads, CarriedAt;
    FirstOneKind(node, parts, file);
  }

  lemma FirstOneKind(node: Node, parts: seq<Partition>, file: string)
    requires forall i: nat :: Leads(node, parts, file, i) <==> CarriedAt(node, parts, file, i)
    ensures forall i: nat | FirstCarried(node, parts, file, i) ::
      FirstLead(node, parts, file, i)
  {
    hide Leads, CarriedAt;
  }

  /** A device that looks like two things hides a branch: the volume group claims the
      partition, and the filesystem of the same name is never looked at. */
  lemma TwoKindsHide()
    ensures var fs := Fs("id", map["f" := [1]]);
      var node := Node(false, Some(Lvm("id", [])), None, Some(fs), None, None);
      var parts := [Partition("p", "id", None, None)];
      && !OneKind(node)
      && Find(node, parts, "f") == None
      && |Branches(node)| == 1 && Carries(Branches(node)[0], parts, "f") && !InSight(node, parts, 0)
  {
    var fs := Fs("id", map["f" := [1]]);
    var node := Node(false, Some(Lvm("id", [])), None, Some(fs), None, None);
    var parts := [Partition("p", "id", None, None)];
    assert Branches(node) == FsBranches(Some(fs));
    SightOfBranches(node, parts);
  }

  // ----- whole drives -----

  /** A self-encrypting drive front end: the serial number it reports, whether it was
      found locked, and the secrets it accepts. */
  datatype Opal = Opal(serial: string, wasLocked: bool, passwords: set<seq<byte>>)

  /** A block device. `spurious` is the firmware artefact of 2^32 blocks of 65535 bytes,
      which is skipped. */
  datatype Drive = Drive(nvme: Option<Opal>, ata: Option<Opal>, spurious: bool, root: Node)

  /** The partitions left after a drive front end that may be the first of them. */
  function After(opal: Option<Opal>, parts: seq<Partition>): seq<Partition>
    requires parts != []
  {
    if opal.Some? && opal.value.serial == parts[0].uuid then parts[1..] else parts
  }

  /** `find_read_file`: a partition a drive has taken is gone for all later drives, and
      running out of partitions ends the whole search. */
  function FindOn(drives: seq<Drive>, parts: seq<Partition>, file: string): Option<Content>
    requires parts != []
  {
    if drives == [] then None
    else
      var d := drives[0];
      var p1 := After(d.nvme, parts);
      if p1 == [] then None
      else
        var p2 := After(d.ata, p1);
        if p2 == [] then None
        else
          match if d.spurious then None else Find(d.root, p2, file)
          case Some(content) => Some(content)
          case None => FindOn(drives[1..], p2, file)
  }

  /** What the configuration asks for: each drive on its own, with the partitions it did
      not take itself. */
  function FindEach(drives: seq<Drive>, parts: seq<Partition>, file: string): Option<Content>
    requires parts != []
  {
    if drives == [] then None
    else
      match FindHere(drives[0], parts, file)
      case Some(content) => Some(content)
      case None => FindEach(drives[1..], parts, file)
  }

  function FindHere(d: Drive, parts: seq<Partition>, file: string): Option<Content>
    requires parts != []
  {
    if d.spurious then None else Find(d.root, Left(d, parts), file)
  }

  /** The partitions left after both front ends of a drive, empty as soon as one of
      them takes the last. */
  function Left(d: Drive, parts: seq<Partition>): seq<Partition>
    requires parts != []
  {
    var p1 := After(d.nvme, parts);
    if p1 == [] then [] else After(d.ata, p1)
  }

  /** The partitions left when the search has come to drive `i`. */
  function LeftAt(drives: seq<Drive>, parts: seq<Partition>, i: nat): seq<Partition>
    requires i <= |drives|
  {
    if i == 0 || parts == [] then parts else LeftAt(drives[1..], Left(drives[0], parts), i - 1)
  }

  /** The drive has a branch that leads to the file behind what is left of the path. */
  ghost predicate Serves(d: Drive, left: seq<Partition>, file: string) {
    !d.spurious && exists i: nat :: Leads(d.root, left, file, i)
  }

  /** Drive `i` serves the file when the search gets there. */
  ghost predicate ServesAt(drives: seq<Drive>, parts: seq<Partition>, file: string, i: nat) {
    i < |drives| && Serves(drives[i], LeftAt(drives, parts, i + 1), file)
  }

  ghost predicate FirstDrive(drives: seq<Drive>, parts: seq<Partition>, file: string, i: nat) {
    ServesAt(drives, parts, file, i) && forall k: nat | k < i :: !ServesAt(drives, parts, file, k)
  }

  /** Branch `j` of drive `i` is the first way to the file in the order of the search. */
  ghost predicate FirstWay(drives: seq<Drive>, parts: seq<Partition>, file: string, i: nat, j: nat) {
    && FirstDrive(drives, parts, file, i)
    && FirstLead(drives[i].root, LeftAt(drives, parts, i + 1), file, j)
  }

  /** The branch on which the search over drives ends. */
  function WayOn(drives: seq<Drive>, parts: seq<Partition>, file: string): (r: Option<Branch>)
    requires parts != []
    ensures r.Some? ==> file in r.value.files
  {
    if drives == [] then None
    else
      var left := Left(drives[0], parts);
      if left == [] then None
      else if !drives[0].spurious && Way(drives[0].root, left, file).Some? then Way(drives[0].root, left, file)
      else WayOn(drives[1..], left, file)
  }

  // ----- what is left, from the serial numbers -----

  /** The serial numbers of drives in the order in which they are looked at. */
  function Serials(drives: seq<Drive>): seq<string> {
    if drives == [] then []
    else
      (if drives[0].nvme.Some? then [drives[0].nvme.value.serial] else [])
      + (if drives[0].ata.Some? then [drives[0].ata.value.serial] else [])
      + Serials(drives[1..])
  }

  /** How many partitions the serial numbers name, in order. */
  function Named(serials: seq<string>, parts: seq<Partition>): (k: nat)
    ensures k <= |parts|
  {
    if serials == [] || parts == [] then 0
    else if serials[0] == parts[0].uuid then 1 + Named(serials[1..], parts[1..])
    else Named(serials[1..], parts)
  }

  lemma {:induction false} NamedConcat(a: seq<string>, b: seq<string>, parts: seq<Partition>)
    ensures Named(a + b, parts) == Named(a, parts) + Named(b, parts[Named(a, parts)..])
  {
    if a == [] {
      assert a + b == b && parts[0..] == parts;
    } else if parts != [] {
      assert (a + b)[1..] == a[1..] + b;
      if a[0] == parts[0].uuid {
        NamedConcat(a[1..], b, parts[1..]);
        var k := Named(a[1..], parts[1..]);
        assert parts[1..][k..] == parts[1 + k..];
      } else {
        NamedConcat(a[1..], b, parts);
      }
    }
  }

  lemma LeftNamed(d: Drive, parts: seq<Partition>)
    requires parts != []
    ensures Left(d, parts) == parts[Named(Serials([d]), parts)..]
  {
    var n := if d.nvme.Some? then [d.nvme.value.serial] else [];
    var a := if d.ata.Some? then [d.ata.value.serial] else [];
    assert [d][1..] == [];
    assert Serials([d]) == n + a;
    NamedConcat(n, a, parts);
    AfterNamed(d.nvme, parts);
    var p1 := After(d.nvme, parts);
    if p1 != [] { AfterNamed(d.ata, p1); }
    assert parts[Named(n, parts)..][Named(a, p1)..] == parts[Named(n, parts) + Named(a, p1)..];
  }

  lemma AfterNamed(opal: Option<Opal>, parts: seq<Partition>)
    requires parts != []
    ensures After(opal, parts) == parts[Named(if opal.Some? then [opal.value.serial] else [], parts)..]
  {
    if opal.Some? { assert [opal.value.serial][1..] == []; }
  }

  /** What is left when the search has come to drive `i`: of the path, as many partitions
      are gone as the front ends before it name in order, NVMe before ATA, whatever their
      keyslots. */
  lemma {:induction false} LeftAtNamed(drives: seq<Drive>, parts: seq<Partition>, i: nat)
    requires i <= |drives|
    ensures LeftAt(drives, parts, i) == parts[Named(Serials(drives[..i]), parts)..]
  {
    if i > 0 && parts != [] {
      hide *;
      var d, rest, left := drives[0], drives[1..], Left(drives[0], parts);
      LeftAtLater(drives, parts, i - 1);
      LeftNamed(d, parts);
      SerialsLater(drives, i);
      LeftAtNamed(rest, left, i - 1);
      NamedConcat(Serials([d]), Serials(rest[..i - 1]), parts);
      SliceTwice(parts, Named(Serials([d]), parts), Named(Serials(rest[..i - 1]), left));
    }
  }

  lemma SliceTwice<T>(s: seq<T>, a: nat, b: nat)
    requires a + b <= |s|
    ensures s[a..][b..] == s[a + b..]
  {
  }

  lemma {:induction false} LeftAtNext(drives: seq<Drive>, parts: seq<Partition>, i: nat)
    requires i < |drives| && LeftAt(drives, parts, i) != []
    ensures LeftAt(drives, parts, i + 1) == Left(drives[i], LeftAt(drives, parts, i))
  {
    if parts != [] {
      LeftAtLater(drives, parts, i);
      if i > 0 {
        LeftAtLater(drives, parts, i - 1);
        hide LeftAt, Left;
        LeftAtNext(drives[1..], Left(drives[0], parts), i - 1);
      }
    }
  }

  lemma SerialsLater(drives: seq<Drive>, i: nat)
    requires 0 < i <= |drives|
    ensures Serials(drives[..i]) == Serials([drives[0]]) + Serials(drives[1..][..i - 1])
  {
    assert drives[..i][0] == drives[0] && drives[..i][1..] == drives[1..][..i - 1];
    assert [drives[0]][1..] == [];
  }

  lemma {:induction false} NamesNothing(serials: seq<string>, parts: seq<Partition>)
    requires NoName(serials, parts)
    ensures Named(serials, parts) == 0
  {
    if serials != [] && parts != [] {
      NamesNothing(serials[1..], parts);
    }
  }

  /** None of the serial numbers is the name of a partition. */
  predicate NoName(serials: seq<string>, parts: seq<Partition>) {
    forall i, j | 0 <= i < |serials| && 0 <= j < |parts| :: serials[i] != parts[j].uuid
  }

  /** A path whose first partition is drive `i` and that no other front end up to there
      names: the drive serves the file exactly when it is not spurious and a branch in
      sight carries the rest of the path. */
  lemma {:induction false} NamedDrive(drives: seq<Drive>, parts: seq<Partition>, file: string, i: nat,
                                      before: seq<string>, after: seq<string>)
    requires i < |drives| && parts != []
    requires Serials(drives[..i + 1]) == before + [parts[0].uuid] + after
    requires NoName(before, parts) && NoName(after, parts)
    ensures LeftAt(drives, parts, i + 1) == parts[1..]
    ensures ServesAt(drives, parts, file, i)
      <==> !drives[i].spurious && exists j: nat :: Leads(drives[i].root, parts[1..], file, j)
  {
    LeftAtNamed(drives, parts, i + 1);
    NamesNothing(before, parts);
    NamesNothing(after, parts[1..]);
    var named := [parts[0].uuid];
    NamedConcat(before + named, after, parts);
    NamedConcat(before, named, parts);
    assert named[1..] == [] && parts[0..] == parts;
    assert Named(named, parts) == 1;
  }

  lemma ServesExact(d: Drive, left: seq<Partition>, file: string)
    ensures Serves(d, left, file) <==> !d.spurious && Find(d.root, left, file).Some?
    ensures Serves(d, left, file) <==> !d.spurious && Way(d.root, left, file).Some?
    ensures left == [] ==> !Serves(d, left, file)
    ensures Serves(d, left, file) ==> exists j: nat :: FirstLead(d.root, left, file, j)
  {
    FindExact(d.root, left, file);
    FindIsFirst(d.root, left, file);
  }

  /** On a drive of one kind nothing is hidden. */
  lemma ServesOneKind(d: Drive, left: seq<Partition>, file: string)
    requires OneKind(d.root)
    ensures Serves(d, left, file)
      <==> !d.spurious && exists j: nat :: CarriedAt(d.root, left, file, j)
  {
    ServesExact(d, left, file);
    FindOneKind(d.root, left, file);
  }

  lemma ServesLater(drives: seq<Drive>, parts: seq<Partition>, file: string)
    requires drives != [] && parts != []
    ensures forall i: nat ::
      (ServesAt(drives, parts, file, i + 1) <==> ServesAt(drives[1..], Left(drives[0], parts), file, i))
    ensures ServesAt(drives, parts, file, 0) <==> Serves(drives[0], Left(drives[0], parts), file)
  {
    hide Left, Serves;
    forall i: nat
      ensures ServesAt(drives, parts, file, i + 1) <==> ServesAt(drives[1..], Left(drives[0], parts), file, i)
    {
      if i + 1 < |drives| {
        assert LeftAt(drives, parts, i + 2) == LeftAt(drives[1..], Left(drives[0], parts), i + 1);
        assert drives[1..][i] == drives[i + 1];
      }
    }
    assert LeftAt(drives, parts, 1) == Left(drives[0], parts);
  }

  lemma NothingServed(drives: seq<Drive>, file: string)
    ensures forall i: nat :: !ServesAt(drives, [], file, i)
  {
    forall i: nat ensures !ServesAt(drives, [], file, i) {
      if i < |drives| { ServesExact(drives[i], [], file); }
    }
  }

  lemma FindOnStep(ds: seq<Drive>, parts: seq<Partition>, file: string)
    requires ds != [] && parts != []
    ensures FindOn(ds, parts, file)
      == if Left(ds[0], parts) == [] || FindHere(ds[0], parts, file).Some? then FindHere(ds[0], parts, file)
         else FindOn(ds[1..], Left(ds[0], parts), file)
  {
  }

  lemma FirstDriveLater(drives: seq<Drive>, parts: seq<Partition>, file: string)
    requires drives != [] && parts != [] && !Serves(drives[0], Left(drives[0], parts), file)
    ensures forall i: nat ::
      (FirstDrive(drives, parts, file, i + 1) <==> FirstDrive(drives[1..], Left(drives[0], parts), file, i))
    ensures !FirstDrive(drives, parts, file, 0)
  {
    ServesLater(drives, parts, file);
    hide Left, Serves, ServesAt;
    forall i: nat
      ensures FirstDrive(drives, parts, file, i + 1) <==> FirstDrive(drives[1..], Left(drives[0], parts), file, i)
    {
      assert forall k: nat | 0 < k < i + 1 ::
        (ServesAt(drives, parts, file, k) <==> ServesAt(drives[1..], Left(drives[0], parts), file, k - 1)) by {
        forall k: nat | 0 < k < i + 1
          ensures ServesAt(drives, parts, file, k) <==> ServesAt(drives[1..], Left(drives[0], parts), file, k - 1)
        {
          assert ServesAt(drives, parts, file, k - 1 + 1)
            <==> ServesAt(drives[1..], Left(drives[0], parts), file, k - 1);
        }
      }
      assert forall k: nat | k < i ::
        (ServesAt(drives, parts, file, k + 1) <==> ServesAt(drives[1..], Left(drives[0], parts), file, k));
    }
  }

  /** The file comes from the first drive that serves it. */
  lemma {:induction false} FirstDriveFound(drives: seq<Drive>, parts: seq<Partition>, file: string, i: nat)
    requires parts != [] && FirstDrive(drives, parts, file, i)
    ensures FindOn(drives, parts, file) == Find(drives[i].root, LeftAt(drives, parts, i + 1), file)
    ensures WayOn(drives, parts, file) == Way(drives[i].root, LeftAt(drives, parts, i + 1), file)
    ensures FindOn(drives, parts, file).Some?
  {
    hide *;
    FirstIsServed(drives, parts, file, i);
    var rest, left := drives[1..], Left(drives[0], parts);
    FirstOrLater(drives, parts, file, i);
    FoundStep(drives, parts, file);
    LeftAtLater(drives, parts, i);
    if i > 0 {
      FirstDriveFound(rest, left, file, i - 1);
      FirstIsServed(rest, left, file, i - 1);
    }
  }

  /** The first drive decides the search, or leaves it to the rest. */
  lemma FoundStep(drives: seq<Drive>, parts: seq<Partition>, file: string)
    requires drives != [] && parts != [] && Left(drives[0], parts) != []
    ensures var d, left := drives[0], Left(drives[0], parts);
      if Serves(d, left, file) then
        && FindOn(drives, parts, file) == Find(d.root, left, file)
        && WayOn(drives, parts, file) == Way(d.root, left, file)
        && FindOn(drives, parts, file).Some?
      else
        && FindOn(drives, parts, file) == FindOn(drives[1..], left, file)
        && WayOn(drives, parts, file) == WayOn(drives[1..], left, file)
  {
    FindOnStep(drives, parts, file);
    WayOnStep(drives, parts, file);
    ServesExact(drives[0], Left(drives[0], parts), file);
    hide FindOn, WayOn, Find, Way, Left, Serves;
  }

  lemma WayOnStep(ds: seq<Drive>, parts: seq<Partition>, file: string)
    requires ds != [] && parts != []
    ensures var left := Left(ds[0], parts);
      WayOn(ds, parts, file)
      == if left == [] then None
         else if !ds[0].spurious && Way(ds[0].root, left, file).Some? then Way(ds[0].root, left, file)
         else WayOn(ds[1..], left, file)
  {
  }

  /** The first drive that serves the file is this one, or the first of the rest. */
  lemma FirstOrLater(drives: seq<Drive>, parts: seq<Partition>, file: string, i: nat)
    requires parts != [] && FirstDrive(drives, parts, file, i) && i < |drives|
    ensures var left := Left(drives[0], parts);
      && left != []
      && (i == 0 <==> Serves(drives[0], left, file))
      && (i > 0 ==> FirstDrive(drives[1..], left, file, i - 1))
  {
    var left := Left(drives[0], parts);
    ServesLater(drives, parts, file);
    ServesExact(drives[0], left, file);
    NothingServed(drives[1..], file);
    if !Serves(drives[0], left, file) {
      FirstDriveLater(drives, parts, file);
      assert i > 0 && FirstDrive(drives, parts, file, i - 1 + 1);
      assert FirstDrive(drives[1..], left, file, i - 1);
      FirstIsServed(drives[1..], left, file, i - 1);
    }
    hide FirstDrive, Serves, Left, LeftAt, Find, Way;
  }

  lemma LeftAtLater(drives: seq<Drive>, parts: seq<Partition>, i: nat)
    requires i < |drives| && parts != []
    ensures LeftAt(drives, parts, i + 1) == LeftAt(drives[1..], Left(drives[0], parts), i)
    ensures LeftAt(drives, parts, 0) == parts
    ensures LeftAt(drives[1..], Left(drives[0], parts), 0) == Left(drives[0], parts)
  {
  }

  lemma FirstIsServed(drives: seq<Drive>, parts: seq<Partition>, file: string, i: nat)
    requires FirstDrive(drives, parts, file, i)
    ensures i < |drives| && ServesAt(drives, parts, file, i)
  {
  }

  lemma {:induction false} FoundOnFirst(drives: seq<Drive>, parts: seq<Partition>, file: string)
    requires parts != [] && FindOn(drives, parts, file).Some?
    ensures exists i: nat :: FirstDrive(drives, parts, file, i)
  {
    var left := Left(drives[0], parts);
    FindOnStep(drives, parts, file);
    ServesExact(drives[0], left, file);
    ServesLater(drives, parts, file);
    if Serves(drives[0], left, file) {
      assert FirstDrive(drives, parts, file, 0);
    } else {
      FirstDriveLater(drives, parts, file);
      hide Find, Serves, ServesAt, FirstDrive;
      assert left != [];
      FoundOnFirst(drives[1..], left, file);
      var i: nat :| FirstDrive(drives[1..], left, file, i);
      assert FirstDrive(drives, parts, file, i + 1);
    }
  }

  lemma {:induction false} LeastServes(drives: seq<Drive>, parts: seq<Partition>, file: string, i: nat)
    requires ServesAt(drives, parts, file, i)
    ensures exists k: nat :: FirstDrive(drives, parts, file, k)
  {
    if k: nat :| k < i && ServesAt(drives, parts, file, k) {
      LeastServes(drives, parts, file, k);
    } else {
      assert FirstDrive(drives, parts, file, i);
    }
  }

  lemma FoundSomewhere(drives: seq<Drive>, parts: seq<Partition>, file: string)
    requires parts != []
    ensures FindOn(drives, parts, file).Some? <==> exists i: nat :: ServesAt(drives, parts, file, i)
    ensures FindOn(drives, parts, file).Some? <==> exists i: nat, j: nat :: FirstWay(drives, parts, file, i, j)
  {
    hide FindOn, Find, ServesAt, Serves, FirstDrive, FirstLead, LeftAt;
    if i: nat :| ServesAt(drives, parts, file, i) {
      LeastServes(drives, parts, file, i);
      var k: nat :| FirstDrive(drives, parts, file, k);
      FirstDriveFound(drives, parts, file, k);
    }
    if i: nat, j: nat :| FirstWay(drives, parts, file, i, j) {
      FirstDriveFound(drives, parts, file, i);
    }
    if FindOn(drives, parts, file).Some? {
      FoundOnFirst(drives, parts, file);
      var i: nat :| FirstDrive(drives, parts, file, i);
      FirstIsServed(drives, parts, file, i);
      var left := LeftAt(drives, parts, i + 1);
      FirstDriveFound(drives, parts, file, i);
      FindExact(drives[i].root, left, file);
      var j: nat :| FirstLead(drives[i].root, left, file, j);
      assert FirstWay(drives, parts, file, i, j);
    }
  }

  /** The search over drives finds a file exactly when some drive serves it with the
      partitions left at that drive, and then it is the file of the first branch of the
      first such drive. */
  lemma DriveSearchExact(drives: seq<Drive>, parts: seq<Partition>, file: string)
    requires parts != []
    ensures FindOn(drives, parts, file).Some? <==> exists i: nat :: ServesAt(drives, parts, file, i)
    ensures FindOn(drives, parts, file).Some? <==> exists i: nat, j: nat :: FirstWay(drives, parts, file, i, j)
    ensures forall i: nat, j: nat | FirstWay(drives, parts, file, i, j) ::
      FindOn(drives, parts, file) == Some(Branches(drives[i].root)[j].files[file])
    ensures forall i: nat, j: nat | FirstWay(drives, parts, file, i, j) ::
      WayOn(drives, parts, file) == Some(Branches(drives[i].root)[j])
  {
    FoundSomewhere(drives, parts, file);
    forall i: nat, j: nat | FirstWay(drives, parts, file, i, j)
      ensures FindOn(drives, parts, file) == Some(Branches(drives[i].root)[j].files[file])
      ensures WayOn(drives, parts, file) == Some(Branches(drives[i].root)[j])
    {
      FirstDriveFound(drives, parts, file, i);
      FindExact(drives[i].root, LeftAt(drives, parts, i + 1), file);
    }
  }

  /** The drive's front ends leave the partitions alone. */
  predicate TakesNothing(d: Drive, parts: seq<Partition>)
    requires parts != []
  {
    After(d.nvme, parts) == parts && After(d.ata, parts) == parts
  }

  lemma {:induction false} SameBefore(before: seq<Drive>, rest: seq<Drive>, parts: seq<Partition>, file: string)
    requires parts != [] && forall d | d in before :: TakesNothing(d, parts)
    ensures FindEach(before + rest, parts, file)
      == if FindEach(before, parts, file).Some? then FindEach(before, parts, file) else FindEach(rest, parts, file)
    ensures FindOn(before + rest, parts, file)
      == if FindEach(before, parts, file).Some? then FindEach(before, parts, file) else FindOn(rest, parts, file)
  {
    if before == [] {
      assert before + rest == rest;
    } else {
      assert (before + rest)[1..] == before[1..] + rest;
      assert TakesNothing(before[0], parts);
      SameBefore(before[1..], rest, parts, file);
    }
  }

  /** Drive `i` serves the file behind what it leaves of the whole path itself. */
  ghost predicate ServesAlone(drives: seq<Drive>, parts: seq<Partition>, file: string, i: nat)
    requires parts != []
  {
    i < |drives| && Serves(drives[i], Left(drives[i], parts), file)
  }

  ghost predicate FirstAlone(drives: seq<Drive>, parts: seq<Partition>, file: string, i: nat)
    requires parts != []
  {
    ServesAlone(drives, parts, file, i) && forall k: nat | k < i :: !ServesAlone(drives, parts, file, k)
  }

  /** Branch `j` of drive `i` is the first way the configuration asks for. */
  ghost predicate FirstWayAlone(drives: seq<Drive>, parts: seq<Partition>, file: string, i: nat, j: nat)
    requires parts != []
  {
    && FirstAlone(drives, parts, file, i)
    && FirstLead(drives[i].root, Left(drives[i], parts), file, j)
  }

  lemma AloneLater(drives: seq<Drive>, parts: seq<Partition>, file: string)
    requires drives != [] && parts != [] && !ServesAlone(drives, parts, file, 0)
    ensures forall i: nat :: (FirstAlone(drives, parts, file, i + 1) <==> FirstAlone(drives[1..], parts, file, i))
    ensures !FirstAlone(drives, parts, file, 0)
  {
    forall i: nat
      ensures ServesAlone(drives, parts, file, i + 1) <==> ServesAlone(drives[1..], parts, file, i)
    {
      if i + 1 < |drives| { assert drives[1..][i] == drives[i + 1]; }
    }
    hide ServesAlone;
    forall i: nat ensures FirstAlone(drives, parts, file, i + 1) <==> FirstAlone(drives[1..], parts, file, i) {
      if FirstAlone(drives[1..], parts, file, i) {
        forall k: nat | k < i + 1 ensures !ServesAlone(drives, parts, file, k) {
          if k > 0 { assert !ServesAlone(drives[1..], parts, file, k - 1); }
        }
      }
      if FirstAlone(drives, parts, file, i + 1) {
        forall k: nat | k < i ensures !ServesAlone(drives[1..], parts, file, k) {
          assert !ServesAlone(drives, parts, file, k + 1);
        }
      }
    }
  }

  /** What the configuration asks for is the file of the first drive that serves it alone. */
  lemma {:induction false} FirstAloneFound(drives: seq<Drive>, parts: seq<Partition>, file: string, i: nat)
    requires parts != [] && FirstAlone(drives, parts, file, i)
    ensures FindEach(drives, parts, file) == Find(drives[i].root, Left(drives[i], parts), file)
    ensures FindEach(drives, parts, file).Some?
  {
    ServesExact(drives[0], Left(drives[0], parts), file);
    if i > 0 {
      AloneLater(drives, parts, file);
      assert FirstAlone(drives[1..], parts, file, i - 1);
      FirstAloneFound(drives[1..], parts, file, i - 1);
    }
  }

  lemma {:induction false} FoundAlone(drives: seq<Drive>, parts: seq<Partition>, file: string)
    requires parts != [] && FindEach(drives, parts, file).Some?
    ensures exists i: nat :: FirstAlone(drives, parts, file, i)
  {
    ServesExact(drives[0], Left(drives[0], parts), file);
    if ServesAlone(drives, parts, file, 0) {
      assert FirstAlone(drives, parts, file, 0);
    } else {
      AloneLater(drives, parts, file);
      hide Find, Serves, FirstAlone;
      FoundAlone(drives[1..], parts, file);
      var i: nat :| FirstAlone(drives[1..], parts, file, i);
      assert FirstAlone(drives, parts, file, i + 1);
    }
  }

  lemma {:induction false} LeastAlone(drives: seq<Drive>, parts: seq<Partition>, file: string, i: nat)
    requires parts != [] && ServesAlone(drives, parts, file, i)
    ensures exists k: nat :: FirstAlone(drives, parts, file, k)
  {
    if k: nat :| k < i && ServesAlone(drives, parts, file, k) {
      LeastAlone(drives, parts, file, k);
    } else {
      assert FirstAlone(drives, parts, file, i);
    }
  }

  lemma FoundAloneSomewhere(drives: seq<Drive>, parts: seq<Partition>, file: string)
    requires parts != []
    ensures FindEach(drives, parts, file).Some? <==> exists i: nat :: ServesAlone(drives, parts, file, i)
    ensures FindEach(drives, parts, file).Some? <==> exists i: nat, j: nat :: FirstWayAlone(drives, parts, file, i, j)
  {
    if i: nat :| ServesAlone(drives, parts, file, i) {
      LeastAlone(drives, parts, file, i);
      var k: nat :| FirstAlone(drives, parts, file, k);
      FirstAloneFound(drives, parts, file, k);
    }
    if i: nat, j: nat :| FirstWayAlone(drives, parts, file, i, j) {
      FirstAloneFound(drives, parts, file, i);
    }
    if FindEach(drives, parts, file).Some? {
      FoundAlone(drives, parts, file);
      var i: nat :| FirstAlone(drives, parts, file, i);
      FirstAloneFound(drives, parts, file, i);
      FindExact(drives[i].root, Left(drives[i], parts), file);
      var j: nat :| FirstLead(drives[i].root, Left(drives[i], parts), file, j);
      assert FirstWayAlone(drives, parts, file, i, j);
    }
  }

  /** The same for what the configuration asks for. */
  lemma FindEachExact(drives: seq<Drive>, parts: seq<Partition>, file: string)
    requires parts != []
    ensures FindEach(drives, parts, file).Some? <==> exists i: nat :: ServesAlone(drives, parts, file, i)
    ensures FindEach(drives, parts, file).Some? <==> exists i: nat, j: nat :: FirstWayAlone(drives, parts, file, i, j)
    ensures forall i: nat, j: nat | FirstWayAlone(drives, parts, file, i, j) ::
      FindEach(drives, parts, file) == Some(Branches(drives[i].root)[j].files[file])
  {
    FoundAloneSomewhere(drives, parts, file);
    forall i: nat, j: nat | FirstWayAlone(drives, parts, file, i, j)
      ensures FindEach(drives, parts, file) == Some(Branches(drives[i].root)[j].files[file])
    {
      FirstAloneFound(drives, parts, file, i);
      FindExact(drives[i].root, Left(drives[i], parts), file);
    }
  }

  /** The first way with `left` carried along and the first way the configuration asks
      for end in the same content, or there is neither. */
  ghost predicate SameEnd(drives: seq<Drive>, left: seq<Partition>, parts: seq<Partition>, file: string)
    requires parts != []
  {
    || (forall i: nat :: !ServesAt(drives, left, file, i) && !ServesAlone(drives, parts, file, i))
    || (exists i: nat, j: nat, k: nat, m: nat ::
          && FirstWay(drives, left, file, i, j)
          && FirstWayAlone(drives, parts, file, k, m)
          && Branches(drives[i].root)[j].files[file] == Branches(drives[k].root)[m].files[file])
  }

  lemma SameEndExact(drives: seq<Drive>, left: seq<Partition>, parts: seq<Partition>, file: string)
    requires parts != []
    ensures SameEnd(drives, left, parts, file)
      <==> (if left == [] then None else FindOn(drives, left, file)) == FindEach(drives, parts, file)
  {
    FindEachExact(drives, parts, file);
    if left == [] {
      NothingServed(drives, file);
    } else {
      DriveSearchExact(drives, left, file);
    }
    hide FindOn, FindEach, ServesAt, ServesAlone, FirstDrive, FirstAlone, FirstLead, Branches;
  }

  /** When drive `d` is the first to take a partition, the search does what the
      configuration asks for exactly when `d` or a drive before it serves the file, or
      the later drives end in the same content with what is left carried along and each
      on its own. */
  lemma CarriedOver(before: seq<Drive>, d: Drive, later: seq<Drive>, parts: seq<Partition>, file: string)
    requires parts != [] && forall b | b in before :: TakesNothing(b, parts)
    requires !TakesNothing(d, parts)
    ensures FindOn(before + ([d] + later), parts, file) == FindEach(before + ([d] + later), parts, file)
      <==>
        || (exists b | b in before :: Serves(b, parts, file))
        || Serves(d, Left(d, parts), file)
        || SameEnd(later, Left(d, parts), parts, file)
  {
    SameBefore(before, [d] + later, parts, file);
    ServedBefore(before, parts, file);
    var left := Left(d, parts);
    ServesExact(d, left, file);
    FindOnStep([d] + later, parts, file);
    assert ([d] + later)[1..] == later;
    SameEndExact(later, left, parts, file);
    hide Serves, SameEnd, Find, Left;
  }

  lemma ServedBefore(before: seq<Drive>, parts: seq<Partition>, file: string)
    requires parts != [] && forall b | b in before :: TakesNothing(b, parts)
    ensures FindEach(before, parts, file).Some? <==> exists b | b in before :: Serves(b, parts, file)
  {
    FindEachExact(before, parts, file);
    if i: nat :| ServesAlone(before, parts, file, i) {
      assert before[i] in before && Left(before[i], parts) == parts;
    }
    if b :| b in before && Serves(b, parts, file) {
      var i :| 0 <= i < |before| && before[i] == b;
      assert ServesAlone(before, parts, file, i);
    }
  }

  /** Where no drive takes a partition, there is nothing to carry over. */
  lemma NothingTaken(drives: seq<Drive>, parts: seq<Partition>, file: string)
    requires parts != [] && forall d | d in drives :: TakesNothing(d, parts)
    ensures FindOn(drives, parts, file) == FindEach(drives, parts, file)
  {
    assert drives + [] == drives;
    SameBefore(drives, [], parts, file);
  }

  /** A drive takes its partition without having the file; a drive without a matching
      serial number then serves it from a filesystem of the next partition's name. */
  lemma CarriedOverWrong()
    ensures var empty := Node(false, None, None, None, None, None);
      var fs := Node(false, None, None, Some(Fs("u", map["f" := [1]])), None, None);
      var drives := [Drive(Some(Opal("s", false, {})), None, false, empty), Drive(None, None, false, fs)];
      var parts := [Partition("drive", "s", None, None), Partition("system", "u", Some("drive"), None)];
      && FindEach(drives, parts, "f") == None
      && FindOn(drives, parts, "f") == Some([1])
  {
    var empty := Node(false, None, None, None, None, None);
    var fs := Node(false, None, None, Some(Fs("u", map["f" := [1]])), None, None);
    var drives := [Drive(Some(Opal("s", false, {})), None, false, empty), Drive(None, None, false, fs)];
    var parts := [Partition("drive", "s", None, None), Partition("system", "u", Some("drive"), None)];
    assert parts[1..] == [Partition("system", "u", Some("drive"), None)];
    assert drives[1..] == [Drive(None, None, false, fs)] && drives[1..][1..] == [];
    assert Find(fs, parts[1..], "f") == Some([1]);
    assert Find(fs, parts, "f") == None;
    assert FindOn(drives[1..], parts[1..], "f") == Some([1]);
    assert FindEach(drives[1..][1..], parts, "f") == None;
    assert FindHere(drives[1], parts, "f") == None;
    assert FindEach(drives[1..], parts, "f") == None;
    assert FindHere(drives[0], parts, "f") == None;
  }

  /** Two namespaces of one controller report one serial number. The file on the second
      is found, as the configuration asks, unless a drive between them has a filesystem
      of the next partition's name. */
  lemma TwoNamespaces()
    ensures var opal := Some(Opal("s", false, {}));
      var empty := Node(false, None, None, None, None, None);
      var fs := Node(false, None, None, Some(Fs("u", map["f" := [1]])), None, None);
      var other := Node(false, None, None, Some(Fs("u", map["f" := [2]])), None, None);
      var (first, second) := (Drive(opal, None, false, empty), Drive(opal, None, false, fs));
      var foreign := Drive(None, None, false, other);
      var parts := [Partition("drive", "s", None, None), Partition("system", "u", Some("drive"), None)];
      && FindEach([first, second], parts, "f") == FindOn([first, second], parts, "f") == Some([1])
      && FindEach([first, foreign, second], parts, "f") == Some([1])
      && FindOn([first, foreign, second], parts, "f") == Some([2])
  {
    var opal := Some(Opal("s", false, {}));
    var empty := Node(false, None, None, None, None, None);
    var fs := Node(false, None, None, Some(Fs("u", map["f" := [1]])), None, None);
    var other := Node(false, None, None, Some(Fs("u", map["f" := [2]])), None, None);
    var (first, second) := (Drive(opal, None, false, empty), Drive(opal, None, false, fs));
    var foreign := Drive(None, None, false, other);
    var parts := [Partition("drive", "s", None, None), Partition("system", "u", Some("drive"), None)];
    var left := [Partition("system", "u", Some("drive"), None)];
    assert parts[1..] == left && left[1..] == [];
    assert Find(fs, left, "f") == Some([1]) && Find(other, left, "f") == Some([2]) && Find(other, parts, "f") == None;
    assert Left(first, parts) == Left(second, parts) == left && Left(foreign, parts) == parts;
    assert Left(second, left) == left && Left(foreign, left) == left;
    assert FindHere(first, parts, "f") == None && FindHere(second, parts, "f") == Some([1]);
    assert FindHere(foreign, parts, "f") == None && FindHere(second, left, "f") == Some([1]);
    assert FindHere(foreign, left, "f") == Some([2]);
    hide Find, Left, FindHere, FindOn;
    FindOnStep([first, second], parts, "f");
    assert [first, second][1..] == [second];
    FindOnStep([second], left, "f");
    FindOnStep([first, foreign, second], parts, "f");
    assert [first, foreign, second][1..] == [foreign, second];
    assert [foreign, second][1..] == [second];
    FindOnStep([foreign, second], left, "f");
  }

  /** The files of a drive that was found locked are behind its own partition, keyslot or
      not: what is left for its filesystem is the rest of the path. */
  lemma BehindLockedDrive(keyslot: Option<Name>)
    ensures var fs := Node(false, None, None, Some(Fs("u", map["f" := [1]])), None, None);
      var drive := Drive(Some(Opal("s", true, {[7]})), None, false, fs);
      FindOn([drive], [Partition("drive", "s", None, keyslot), Partition("system", "u", Some("drive"), None)], "f")
        == Some([1])
  {
    var fs := Node(false, None, None, Some(Fs("u", map["f" := [1]])), None, None);
    var drive := Drive(Some(Opal("s", true, {[7]})), None, false, fs);
    var parts := [Partition("drive", "s", None, keyslot), Partition("system", "u", Some("drive"), None)];
    assert parts[1..] == [Partition("system", "u", Some("drive"), None)];
    assert Find(fs, parts[1..], "f") == Some([1]);
  }
}
