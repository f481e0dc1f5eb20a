/**
  The generation-quarantined arena pools as a sequential state machine.

  Blocks are numbered in the order `initPools` lays them out.  A state lists the blocks on the
  three pool stacks, top first, and the live arenas.  Clients name their arenas by handles; an
  arena is a linear value, so a retired handle is gone.
*/
module ArenaModel {
  import opened Bytes
  import opened Division
  import opened Outcomes
  import opened Sequences

  datatype Tier = Trusted | Untrusted

  datatype Flags = Flags(dirty: bool, zeroed: bool, quarantined: bool)

  const CLEAR: Flags := Flags(false, false, false)
  const ZEROED: Flags := Flags(false, true, false)

  const MAX_USIZE: nat := 0xFFFF_FFFF_FFFF_FFFF

  /** The bytes `start`, ..., `start + len - 1` of the backing region. */
  datatype Extent = Extent(start: nat, len: nat)

  datatype Arena = Arena(tier: Tier, block: nat, generation: nat, offset: nat, allocs: seq<Extent>)

  /** `base[b]` is where block `b` starts in the backing region, which is mapped at `backing`. */
  datatype Pools = Pools(
    backing: nat, blockSize: nat, base: seq<nat>,
    common: seq<nat>, quarantine: seq<nat>, l2: seq<nat>,
    flags: seq<Flags>, retired: seq<nat>, memory: seq<Byte>,
    generation: nat, sanitized: nat, arenas: map<nat, Arena>)

  datatype Op =
    | InitArena(h: nat, tier: Tier)
    | Alloc(h: nat, elemSize: nat, align: nat, count: nat)
    | Write(h: nat, pos: nat, value: Byte)
    | Deinit(h: nat)
    | DeinitAndZero(h: nat)
    | IncrementGeneration
    | SanitizeOne(gen: nat)

  datatype PoolName = CommonPool | QuarantinePool | L2Pool

  datatype AllocOutcome = Allocated(extent: Extent) | OutOfMemory | Trapped

  // ----- Operations

  /** `n` blocks side by side, all on the common list. */
  function SideBySide(backing: nat, n: nat, blockSize: nat, memory: seq<Byte>): Pools {
    Pools(backing, blockSize, seq(n, (i: nat) => i * blockSize),
          Range(n), [], [],
          seq(n, _ => CLEAR), seq(n, _ => 0), memory, 1, 0, map[])
  }

  predicate Enabled(s: Pools, op: Op) {
    match op
    case InitArena(h, _) => h !in s.arenas
    case Alloc(h, elemSize, align, _) => h in s.arenas && align > 0 && elemSize % align == 0
    case Write(h, pos, _) =>
      h in s.arenas && exists k :: 0 <= k < |s.arenas[h].allocs| && Inside(pos, s.arenas[h].allocs[k])
    case Deinit(h) => h in s.arenas
    case DeinitAndZero(h) => h in s.arenas
    case _ => true
  }

  predicate Inside(pos: nat, e: Extent) {
    e.start <= pos < e.start + e.len
  }

  /** A quarantined block may be reused once its retired generation is two behind `gen`. */
  predicate Eligible(s: Pools, b: nat, gen: nat) {
    b < |s.retired| && s.retired[b] + 1 < gen
  }

  predicate CanPopSafe(s: Pools, gen: nat) {
    s.quarantine != [] && Eligible(s, s.quarantine[0], gen)
  }

  /** Rounding up as `std.mem.alignForward` does. */
  function AlignForward(size: nat, align: nat): nat
    requires align > 0
  {
    (size + align - 1) / align * align
  }

  function AllocResult(s: Pools, a: Arena, elemSize: nat, align: nat, count: nat): AllocOutcome
    requires align > 0 && a.block < |s.base|
  {
    var size := elemSize * count;
    if size + align - 1 > MAX_USIZE then Trapped
    else
      var aligned := AlignForward(size, align);
      if a.offset + aligned > MAX_USIZE then Trapped
      else if a.offset + aligned > s.blockSize then OutOfMemory
      else if (s.backing + s.base[a.block] + a.offset) % align != 0 then Trapped
      else Allocated(Extent(s.base[a.block] + a.offset, aligned))
  }

  /** Records an allocation in its arena; an untrusted client's block becomes dirty. */
  function Bump(s: Pools, h: nat, extent: Extent): Pools
    requires h in s.arenas && s.arenas[h].block < |s.flags|
  {
    var a := s.arenas[h];
    var a' := a.(offset := a.offset + extent.len, allocs := a.allocs + [extent]);
    var flags := if a.tier == Untrusted then s.flags[a.block := s.flags[a.block].(dirty := true)] else s.flags;
    s.(arenas := s.arenas[h := a'], flags := flags)
  }

  function Zeroed(memory: seq<Byte>, start: nat, len: nat): seq<Byte> {
    seq(|memory|, (i: nat) requires i < |memory| => if start <= i < start + len then 0 else memory[i])
  }

  function ZeroBlock(s: Pools, b: nat): seq<Byte>
    requires b < |s.base|
  {
    Zeroed(s.memory, s.base[b], s.blockSize)
  }

  /** Where `Arena.init` finds a block: the common list, or for untrusted arenas L2, common, quarantine in turn. */
  function PickPool(s: Pools, tier: Tier): Option<PoolName> {
    if tier == Untrusted && s.l2 != [] then Some(L2Pool)
    else if s.common != [] then Some(CommonPool)
    else if tier == Untrusted && CanPopSafe(s, s.generation) then Some(QuarantinePool)
    else None
  }

  function ListOf(s: Pools, p: PoolName): seq<nat> {
    match p
    case CommonPool => s.common
    case QuarantinePool => s.quarantine
    case L2Pool => s.l2
  }

  function OpenFlags(tier: Tier, p: PoolName): Flags {
    if p != CommonPool then ZEROED else if tier == Untrusted then CLEAR.(dirty := true) else CLEAR
  }

  /** A new arena takes the top block of a pool. */
  function Open(s: Pools, h: nat, tier: Tier, p: PoolName): Pools
    requires Wf(s) && ListOf(s, p) != []
  {
    var b := ListOf(s, p)[0];
    var t := s.(flags := s.flags[b := OpenFlags(tier, p)],
                arenas := s.arenas[h := Arena(tier, b, s.generation, 0, [])]);
    match p
    case CommonPool => t.(common := s.common[1..])
    case QuarantinePool => t.(quarantine := s.quarantine[1..])
    case L2Pool => t.(l2 := s.l2[1..])
  }

  /** A retired arena's block goes on top of a pool. */
  function Close(s: Pools, h: nat, p: PoolName): Pools
    requires h in s.arenas
  {
    var b := s.arenas[h].block;
    var t := s.(arenas := s.arenas - {h});
    match p
    case CommonPool => t.(common := [b] + s.common)
    case QuarantinePool => t.(quarantine := [b] + s.quarantine)
    case L2Pool => t.(l2 := [b] + s.l2)
  }

  function Apply(s: Pools, op: Op): Pools
    requires Wf(s) && Enabled(s, op)
  {
    match op
    case InitArena(h, tier) =>
      var p := PickPool(s, tier);
      if p.Some? then Open(s, h, tier, p.value) else s
    case Alloc(h, elemSize, align, count) =>
      var r := AllocResult(s, s.arenas[h], elemSize, align, count);
      if r.Allocated? then Bump(s, h, r.extent) else s
    case Write(_, pos, value) => if pos < |s.memory| then s.(memory := s.memory[pos := value]) else s
    case Deinit(h) =>
      var b := s.arenas[h].block;
      if s.arenas[h].tier == Trusted then Close(s, h, CommonPool)
      else Close(s, h, QuarantinePool).(flags := s.flags[b := s.flags[b].(quarantined := true)],
                                        retired := s.retired[b := s.generation])
    case DeinitAndZero(h) =>
      var b := s.arenas[h].block;
      if s.arenas[h].tier == Trusted then Close(s, h, CommonPool).(memory := ZeroBlock(s, b))
      else Close(s, h, L2Pool).(flags := s.flags[b := ZEROED])
    case IncrementGeneration => s.(generation := s.generation + 1)
    case SanitizeOne(gen) =>
      if !CanPopSafe(s, gen) then s
      else
        var b := s.quarantine[0];
        s.(quarantine := s.quarantine[1..], l2 := [b] + s.l2, flags := s.flags[b := ZEROED],
           memory := ZeroBlock(s, b), sanitized := s.sanitized + 1)
  }

  // ----- Invariants

  predicate AllBelow(list: seq<nat>, n: nat) {
    forall i :: 0 <= i < |list| ==> list[i] < n
  }

  /** The block numbers in a state exist. */
  predicate Wf(s: Pools) {
    && |s.flags| == |s.retired| == |s.base|
    && AllBelow(s.common, |s.base|) && AllBelow(s.quarantine, |s.base|) && AllBelow(s.l2, |s.base|)
    && (forall h :: h in s.arenas ==> s.arenas[h].block < |s.base|)
  }

  predicate InArena(arenas: map<nat, Arena>, b: nat) {
    exists h :: h in arenas && arenas[h].block == b
  }

  /** In how many places the block is. */
  function Homes(s: Pools, b: nat): nat {
    multiset(s.common)[b] + multiset(s.quarantine)[b] + multiset(s.l2)[b] + (if InArena(s.arenas, b) then 1 else 0)
  }

  predicate ArenasApart(arenas: map<nat, Arena>) {
    forall h, k :: h in arenas && k in arenas && h != k ==> arenas[h].block != arenas[k].block
  }

  /** Every block is in exactly one place: once on one list, or in one arena. */
  predicate Partition(s: Pools) {
    && (forall b: nat :: b < |s.base| ==> Homes(s, b) == 1)
    && ArenasApart(s.arenas)
  }

  /** Blocks are consecutive stretches of the backing region. */
  predicate Layout(s: Pools) {
    && (forall i, j :: 0 <= i < j < |s.base| ==> s.base[i] + s.blockSize <= s.base[j])
    && (forall i :: 0 <= i < |s.base| ==> s.base[i] + s.blockSize <= |s.memory|)
  }

  /** Retired generations never increase from the top of the quarantine down, nor exceed the present. */
  predicate Ordered(quarantine: seq<nat>, retired: seq<nat>, generation: nat) {
    && AllBelow(quarantine, |retired|)
    && (forall i, j :: 0 <= i < j < |quarantine| ==> retired[quarantine[j]] <= retired[quarantine[i]])
    && (forall i :: 0 <= i < |quarantine| ==> retired[quarantine[i]] <= generation)
  }

  /** An arena's allocations follow one another below its offset, inside its block. */
  predicate ArenaOk(a: Arena, base: nat, blockSize: nat) {
    && a.offset <= blockSize
    && (forall i :: 0 <= i < |a.allocs| ==>
          base <= a.allocs[i].start && a.allocs[i].start + a.allocs[i].len <= base + a.offset)
    && (forall i, j :: 0 <= i < j < |a.allocs| ==>
          a.allocs[i].start + a.allocs[i].len <= a.allocs[j].start)
  }

  predicate Bumped(s: Pools)
    requires Wf(s)
  {
    forall h :: h in s.arenas ==> ArenaOk(s.arenas[h], s.base[s.arenas[h].block], s.blockSize)
  }

  predicate Inv(s: Pools) {
    Wf(s) && Partition(s) && Layout(s) && Ordered(s.quarantine, s.retired, s.generation) && Bumped(s)
  }

  // ----- Every operation keeps the invariant

  lemma BlockOffset(i: nat, j: nat, size: nat)
    requires i < j
    ensures i * size + size <= j * size
  {
    assert (i + 1) * size <= j * size;
  }

  /** `initPools`. */
  function InitPools(backing: nat, n: nat, blockSize: nat, memory: seq<Byte>): (s: Pools)
    requires |memory| == n * blockSize
    ensures Inv(s)
    ensures s.generation == 1 && s.sanitized == 0 && s.arenas == map[] && s.quarantine == [] && s.l2 == []
    ensures |s.common| == n
    ensures forall i :: 0 <= i < n ==> s.common[i] == i && s.base[i] == i * blockSize && s.retired[i] == 0
  {
    SideBySideInv(backing, n, blockSize, memory);
    SideBySide(backing, n, blockSize, memory)
  }

  lemma SideBySideInv(backing: nat, n: nat, blockSize: nat, memory: seq<Byte>)
    requires |memory| == n * blockSize
    ensures Inv(SideBySide(backing, n, blockSize, memory))
  {
    var s := SideBySide(backing, n, blockSize, memory);
    forall i, j | 0 <= i < j < n ensures s.base[i] + blockSize <= s.base[j] {
      BlockOffset(i, j, blockSize);
    }
    forall i | 0 <= i < n ensures s.base[i] + blockSize <= |memory| {
      BlockOffset(i, n, blockSize);
    }
    forall b: nat | b < n ensures Homes(s, b) == 1 {
      RangeCount(n, b);
    }
  }

  lemma PopCount(list: seq<nat>, b: nat)
    requires list != []
    ensures multiset(list)[b] == multiset(list[1..])[b] + if list[0] == b then 1 else 0
  {
    assert list == [list[0]] + list[1..];
  }

  lemma ArenaAdded(arenas: map<nat, Arena>, h: nat, a: Arena, b: nat)
    requires h !in arenas
    ensures InArena(arenas[h := a], b) <==> b == a.block || InArena(arenas, b)
  {
    var arenas' := arenas[h := a];
    if b == a.block { assert arenas'[h].block == b; }
    if InArena(arenas, b) {
      var k :| k in arenas && arenas[k].block == b;
      assert k in arenas' && arenas'[k].block == b;
    }
  }

  lemma ArenaRemoved(arenas: map<nat, Arena>, h: nat, b: nat)
    requires h in arenas && ArenasApart(arenas)
    ensures InArena(arenas - {h}, b) <==> InArena(arenas, b) && b != arenas[h].block
  {
    if InArena(arenas, b) && b != arenas[h].block {
      var k :| k in arenas && arenas[k].block == b;
      assert k in arenas - {h} && (arenas - {h})[k].block == b;
    }
  }

  lemma ArenaChanged(arenas: map<nat, Arena>, h: nat, a: Arena, b: nat)
    requires h in arenas && a.block == arenas[h].block
    ensures InArena(arenas[h := a], b) <==> InArena(arenas, b)
  {
    var arenas' := arenas[h := a];
    if InArena(arenas, b) {
      var k :| k in arenas && arenas[k].block == b;
      assert k in arenas' && arenas'[k].block == b;
    }
  }

  /** A listed block is in no arena, and on no other list. */
  lemma ListedOnce(s: Pools, b: nat)
    requires Partition(s) && b < |s.base|
    ensures b in s.common ==> b !in s.quarantine && b !in s.l2 && !InArena(s.arenas, b)
    ensures b in s.quarantine ==> b !in s.common && b !in s.l2 && !InArena(s.arenas, b)
    ensures b in s.l2 ==> b !in s.common && b !in s.quarantine && !InArena(s.arenas, b)
  {
    assert Homes(s, b) == 1;
    assert forall list: seq<nat> :: b in list <==> multiset(list)[b] > 0;
  }

  /** Taking the top block of a list into a new arena. */
  lemma OpenPartition(s: Pools, h: nat, tier: Tier, p: PoolName)
    requires Wf(s) && Partition(s) && h !in s.arenas && ListOf(s, p) != []
    ensures Partition(Open(s, h, tier, p))
  {
    var t := Open(s, h, tier, p);
    var a := t.arenas[h];
    forall b: nat | b < |t.base| ensures Homes(t, b) == 1 {
      assert Homes(s, b) == 1;
      ArenaAdded(s.arenas, h, a, b);
      PopCount(ListOf(s, p), b);
    }
    forall k | k in s.arenas ensures s.arenas[k].block != a.block {
      assert a.block in ListOf(s, p);
      ListedOnce(s, a.block);
      assert s.arenas[k].block == a.block ==> InArena(s.arenas, a.block);
    }
  }

  /** Putting a retired arena's block on top of a list. */
  lemma ClosePartition(s: Pools, t: Pools, h: nat, p: PoolName)
    requires Wf(s) && Partition(s) && h in s.arenas
    requires var u := Close(s, h, p);
             t.base == s.base && t.arenas == u.arenas && t.common == u.common
             && t.quarantine == u.quarantine && t.l2 == u.l2
    ensures Partition(t)
  {
    var b := s.arenas[h].block;
    assert InArena(s.arenas, b);
    forall c: nat | c < |t.base| ensures Homes(t, c) == 1 {
      assert Homes(s, c) == 1;
      ArenaRemoved(s.arenas, h, c);
    }
  }

  lemma SanitizePartition(s: Pools, gen: nat)
    requires Wf(s) && Partition(s)
    ensures Partition(Apply(s, SanitizeOne(gen)))
  {
    var t := Apply(s, SanitizeOne(gen));
    if CanPopSafe(s, gen) {
      forall b: nat | b < |t.base| ensures Homes(t, b) == 1 {
        assert Homes(s, b) == 1;
        PopCount(s.quarantine, b);
      }
    }
  }

  lemma BumpKeeps(s: Pools, h: nat, extent: Extent)
    requires Wf(s) && Partition(s) && Bumped(s) && h in s.arenas
    requires extent.start == s.base[s.arenas[h].block] + s.arenas[h].offset
    requires s.arenas[h].offset + extent.len <= s.blockSize
    ensures Wf(Bump(s, h, extent)) && Partition(Bump(s, h, extent)) && Bumped(Bump(s, h, extent))
  {
    var t := Bump(s, h, extent);
    var a := s.arenas[h];
    assert ArenaOk(a, s.base[a.block], s.blockSize);
    forall b: nat | b < |t.base| ensures Homes(t, b) == 1 {
      assert Homes(s, b) == 1;
      ArenaChanged(s.arenas, h, t.arenas[h], b);
    }
  }

  lemma AllocKeeps(s: Pools, op: Op)
    requires Inv(s) && Enabled(s, op) && op.Alloc?
    ensures Wf(Apply(s, op)) && Partition(Apply(s, op)) && Bumped(Apply(s, op))
  {
    var r := AllocResult(s, s.arenas[op.h], op.elemSize, op.align, op.count);
    if r.Allocated? { BumpKeeps(s, op.h, r.extent); }
  }

  lemma ApplyPartition(s: Pools, op: Op)
    requires Inv(s) && Enabled(s, op)
    ensures Partition(Apply(s, op))
  {
    var t := Apply(s, op);
    match op
    case InitArena(h, tier) =>
      var p := PickPool(s, tier);
      if p.Some? { OpenPartition(s, h, tier, p.value); }
    case Alloc(_, _, _, _) => AllocKeeps(s, op);
    case Deinit(h) => ClosePartition(s, t, h, if s.arenas[h].tier == Trusted then CommonPool else QuarantinePool);
    case DeinitAndZero(h) => ClosePartition(s, t, h, if s.arenas[h].tier == Trusted then CommonPool else L2Pool);
    case SanitizeOne(gen) => SanitizePartition(s, gen);
    case _ => assert forall b: nat :: Homes(t, b) == Homes(s, b);
  }

  lemma OpenWf(s: Pools, h: nat, tier: Tier, p: PoolName)
    requires Wf(s) && ListOf(s, p) != []
    ensures Wf(Open(s, h, tier, p))
  {
  }

  lemma CloseWf(s: Pools, h: nat, p: PoolName)
    requires Wf(s) && h in s.arenas
    ensures Wf(Close(s, h, p))
  {
  }

  lemma ApplyWf(s: Pools, op: Op)
    requires Inv(s) && Enabled(s, op)
    ensures Wf(Apply(s, op))
  {
    match op
    case InitArena(h, tier) =>
      var p := PickPool(s, tier);
      if p.Some? { OpenWf(s, h, tier, p.value); }
    case Alloc(_, _, _, _) => AllocKeeps(s, op);
    case Deinit(h) => CloseWf(s, h, if s.arenas[h].tier == Trusted then CommonPool else QuarantinePool);
    case DeinitAndZero(h) => CloseWf(s, h, if s.arenas[h].tier == Trusted then CommonPool else L2Pool);
    case _ =>
  }

  lemma ApplyLayout(s: Pools, op: Op)
    requires Wf(s) && Enabled(s, op) && Layout(s)
    ensures Layout(Apply(s, op))
  {
  }

  lemma ApplyBumped(s: Pools, op: Op)
    requires Inv(s) && Enabled(s, op)
    ensures Wf(Apply(s, op)) && Bumped(Apply(s, op))
  {
    ApplyWf(s, op);
    if op.Alloc? { AllocKeeps(s, op); }
  }

  /** The quarantine grows only at the top, with the present generation. */
  lemma PushOrdered(quarantine: seq<nat>, retired: seq<nat>, generation: nat, b: nat)
    requires Ordered(quarantine, retired, generation) && b < |retired| && b !in quarantine
    ensures Ordered([b] + quarantine, retired[b := generation], generation)
  {
  }

  lemma ApplyOrdered(s: Pools, op: Op)
    requires Inv(s) && Enabled(s, op)
    ensures Ordered(Apply(s, op).quarantine, Apply(s, op).retired, Apply(s, op).generation)
  {
    if op.Deinit? && s.arenas[op.h].tier == Untrusted {
      var b := s.arenas[op.h].block;
      assert InArena(s.arenas, b);
      ListedOnce(s, b);
      PushOrdered(s.quarantine, s.retired, s.generation, b);
    } else {
      var t := Apply(s, op);
      assert t.retired == s.retired && t.generation >= s.generation;
      assert t.quarantine == s.quarantine || (s.quarantine != [] && t.quarantine == s.quarantine[1..]);
    }
  }

  /** Every operation keeps the partition, the layout, the quarantine order and the bump discipline. */
  lemma ApplyInv(s: Pools, op: Op)
    requires Inv(s) && Enabled(s, op)
    ensures Inv(Apply(s, op))
  {
    ApplyWf(s, op);
    ApplyLayout(s, op);
    ApplyPartition(s, op);
    ApplyOrdered(s, op);
    ApplyBumped(s, op);
  }

  // ----- Runs

  predicate IsRun(s: Pools, run: seq<Op>)
    requires Inv(s)
    decreases |run|
  {
    run == [] || (Enabled(s, run[0]) && (ApplyInv(s, run[0]); IsRun(Apply(s, run[0]), run[1..])))
  }

  function After(s: Pools, run: seq<Op>): Pools
    requires Inv(s) && IsRun(s, run)
    decreases |run|
  {
    if run == [] then s
    else ApplyInv(s, run[0]); After(Apply(s, run[0]), run[1..])
  }

  lemma ApplyFrame(s: Pools, op: Op)
    requires Wf(s) && Enabled(s, op)
    ensures Apply(s, op).base == s.base && Apply(s, op).blockSize == s.blockSize && Apply(s, op).backing == s.backing
    ensures |Apply(s, op).memory| == |s.memory|
  {
  }

  /**
    Conservation: in every run the blocks stay partitioned among the three lists and the live
    arenas; none is lost, duplicated or in two places.
  */
  lemma {:induction false} RunKeepsInv(s: Pools, run: seq<Op>)
    requires Inv(s) && IsRun(s, run)
    ensures Inv(After(s, run))
    ensures After(s, run).base == s.base && After(s, run).blockSize == s.blockSize && After(s, run).backing == s.backing
    ensures |After(s, run).memory| == |s.memory|
    decreases |run|
  {
    if run != [] {
      ApplyInv(s, run[0]);
      ApplyFrame(s, run[0]);
      RunKeepsInv(Apply(s, run[0]), run[1..]);
    }
  }

  // ----- Untrusted blocks stay untrusted

  /** The block is where untrusted blocks live. */
  predicate Confined(s: Pools, b: nat) {
    || b in s.quarantine
    || b in s.l2
    || exists h :: h in s.arenas && s.arenas[h].block == b && s.arenas[h].tier == Untrusted
  }

  lemma StillUntrusted(s: Pools, b: nat, h: nat)
    requires h in s.arenas && s.arenas[h].block == b && s.arenas[h].tier == Untrusted
    ensures Confined(s, b)
  {
  }

  lemma ListedStaysConfined(s: Pools, op: Op, b: nat)
    requires Inv(s) && Enabled(s, op) && (b in s.quarantine || b in s.l2)
    ensures Confined(Apply(s, op), b)
  {
    var t := Apply(s, op);
    match op
    case InitArena(h, _) =>
      if t != s && b == t.arenas[h].block {
        ListedOnce(s, b);
        StillUntrusted(t, b, h);
      }
    case Deinit(h) => assert b in [s.arenas[h].block] + s.quarantine || b in s.l2;
    case DeinitAndZero(h) => assert b in s.quarantine || b in [s.arenas[h].block] + s.l2;
    case SanitizeOne(_) => if t != s { assert b in t.quarantine || b in [s.quarantine[0]] + s.l2; }
    case _ =>
  }

  lemma ServingStaysConfined(s: Pools, op: Op, b: nat, h: nat)
    requires Wf(s) && Enabled(s, op)
    requires h in s.arenas && s.arenas[h].block == b && s.arenas[h].tier == Untrusted
    ensures Confined(Apply(s, op), b)
  {
    var t := Apply(s, op);
    if h in t.arenas {
      StillUntrusted(t, b, h);
    } else if op == Deinit(h) {
      assert b in [b] + s.quarantine;
    } else {
      assert b in [b] + s.l2;
    }
  }

  /** Every way out of the quarantine, the L2 list or an untrusted arena leads to another of the three. */
  lemma ApplyConfined(s: Pools, op: Op, b: nat)
    requires Inv(s) && Enabled(s, op) && Confined(s, b)
    ensures Confined(Apply(s, op), b)
  {
    if b in s.quarantine || b in s.l2 {
      ListedStaysConfined(s, op, b);
    } else {
      var h :| h in s.arenas && s.arenas[h].block == b && s.arenas[h].tier == Untrusted;
      ServingStaysConfined(s, op, b, h);
    }
  }

  /** A confined block is neither free for trusted code nor in its hands. */
  lemma ConfinedIsAway(s: Pools, b: nat)
    requires Inv(s) && Confined(s, b)
    ensures b !in s.common
    ensures forall h :: h in s.arenas && s.arenas[h].block == b ==> s.arenas[h].tier == Untrusted
  {
    if h :| h in s.arenas && s.arenas[h].block == b { assert InArena(s.arenas, b); }
    if b < |s.base| { ListedOnce(s, b); }
  }

  /**
    Tier isolation: once a block has served an untrusted arena, no later state of any run has it
    on the common list or inside a trusted arena.
  */
  lemma {:induction false} UntrustedBlockNeverReturns(s: Pools, run: seq<Op>, b: nat)
    requires Inv(s) && IsRun(s, run) && Confined(s, b)
    ensures b !in After(s, run).common
    ensures forall h :: h in After(s, run).arenas && After(s, run).arenas[h].block == b ==>
              After(s, run).arenas[h].tier == Untrusted
    decreases |run|
  {
    if run == [] {
      ConfinedIsAway(s, b);
    } else {
      ApplyInv(s, run[0]);
      ApplyConfined(s, run[0], b);
      UntrustedBlockNeverReturns(Apply(s, run[0]), run[1..], b);
    }
  }

  // ----- What the flags say

  /** Flags and stamps tell where a block is: clear for trusted use, zeroed on L2, quarantined in quarantine. */
  predicate Labelled(s: Pools)
    requires Wf(s)
  {
    && (forall i :: 0 <= i < |s.common| ==> s.flags[s.common[i]] == CLEAR)
    && (forall i :: 0 <= i < |s.l2| ==> s.flags[s.l2[i]] == ZEROED)
    && (forall i :: 0 <= i < |s.quarantine| ==> s.flags[s.quarantine[i]].quarantined)
    && (forall h :: h in s.arenas ==> ArenaLabelled(s.arenas[h], s.flags[s.arenas[h].block], s.generation))
  }

  /** A trusted arena's block is clear; an untrusted one's is not in quarantine, and dirty once allocated from. */
  predicate ArenaLabelled(a: Arena, flags: Flags, generation: nat) {
    && (a.tier == Trusted ==> flags == CLEAR)
    && (a.tier == Untrusted ==> !flags.quarantined && (a.allocs != [] ==> flags.dirty))
    && a.generation <= generation
  }

  /** Changing the flags of a block that is on no list and in no other arena. */
  lemma OtherLabels(s: Pools, b: nat, flags: Flags)
    requires Wf(s) && Labelled(s) && b < |s.flags|
    ensures forall i :: 0 <= i < |s.common| && s.common[i] != b ==> s.flags[b := flags][s.common[i]] == CLEAR
    ensures forall i :: 0 <= i < |s.l2| && s.l2[i] != b ==> s.flags[b := flags][s.l2[i]] == ZEROED
    ensures forall i :: 0 <= i < |s.quarantine| && s.quarantine[i] != b ==>
              s.flags[b := flags][s.quarantine[i]].quarantined
    ensures forall h :: h in s.arenas && s.arenas[h].block != b ==>
              ArenaLabelled(s.arenas[h], s.flags[b := flags][s.arenas[h].block], s.generation)
  {
  }

  lemma OpenLabelled(s: Pools, h: nat, tier: Tier, p: PoolName)
    requires Inv(s) && Labelled(s) && h !in s.arenas && ListOf(s, p) != [] && (tier == Trusted ==> p == CommonPool)
    ensures Wf(Open(s, h, tier, p)) && Labelled(Open(s, h, tier, p))
  {
    OpenWf(s, h, tier, p);
    var b := ListOf(s, p)[0];
    var t := Open(s, h, tier, p);
    OpenPartition(s, h, tier, p);
    OtherLabels(s, b, OpenFlags(tier, p));
    assert t.arenas[h].block == b && InArena(t.arenas, b);
    ListedOnce(t, b);
    NotInArenas(s, b);
  }

  /** A listed block belongs to no arena. */
  lemma NotInArenas(s: Pools, b: nat)
    requires Partition(s) && b < |s.base| && (b in s.common || b in s.quarantine || b in s.l2)
    ensures forall h :: h in s.arenas ==> s.arenas[h].block != b
  {
    ListedOnce(s, b);
    forall h | h in s.arenas ensures s.arenas[h].block != b {
      assert s.arenas[h].block == b ==> InArena(s.arenas, b);
    }
  }

  lemma CloseLabelled(s: Pools, h: nat, p: PoolName, flags: Flags)
    requires Inv(s) && Labelled(s) && h in s.arenas
    requires p == CommonPool ==> flags == CLEAR
    requires p == L2Pool ==> flags == ZEROED
    requires p == QuarantinePool ==> flags.quarantined
    ensures var t := Close(s, h, p).(flags := s.flags[s.arenas[h].block := flags]); Wf(t) && Labelled(t)
  {
    CloseWf(s, h, p);
    var b := s.arenas[h].block;
    assert InArena(s.arenas, b);
    ListedOnce(s, b);
    OtherLabels(s, b, flags);
    assert forall k :: k in s.arenas && k != h ==> s.arenas[k].block != b;
  }

  lemma SanitizeLabelled(s: Pools, gen: nat)
    requires Inv(s) && Labelled(s)
    ensures Wf(Apply(s, SanitizeOne(gen))) && Labelled(Apply(s, SanitizeOne(gen)))
  {
    ApplyWf(s, SanitizeOne(gen));
    if CanPopSafe(s, gen) {
      var b := s.quarantine[0];
      OtherLabels(s, b, ZEROED);
      ListedOnce(s, b);
      assert Homes(s, b) == 1;
      PopCount(s.quarantine, b);
      assert b !in multiset(s.quarantine[1..]) && b !in s.quarantine[1..];
      NotInArenas(s, b);
    }
  }

  lemma BumpLabelled(s: Pools, h: nat, extent: Extent)
    requires Inv(s) && Labelled(s) && h in s.arenas && Wf(Bump(s, h, extent))
    ensures Labelled(Bump(s, h, extent))
  {
    var b := s.arenas[h].block;
    assert ArenaLabelled(s.arenas[h], s.flags[b], s.generation);
    assert InArena(s.arenas, b);
    ListedOnce(s, b);
    OtherLabels(s, b, s.flags[b].(dirty := true));
    assert forall k :: k in s.arenas && k != h ==> s.arenas[k].block != b;
  }

  lemma ApplyLabelled(s: Pools, op: Op)
    requires Inv(s) && Labelled(s) && Enabled(s, op)
    ensures Wf(Apply(s, op)) && Labelled(Apply(s, op))
  {
    ApplyWf(s, op);
    match op
    case InitArena(h, tier) =>
      var p := PickPool(s, tier);
      if p.Some? { OpenLabelled(s, h, tier, p.value); }
    case Alloc(h, elemSize, align, count) =>
      var r := AllocResult(s, s.arenas[h], elemSize, align, count);
      if r.Allocated? { BumpLabelled(s, h, r.extent); }
    case Deinit(h) =>
      var b := s.arenas[h].block;
      assert ArenaLabelled(s.arenas[h], s.flags[b], s.generation);
      if s.arenas[h].tier == Trusted {
        CloseLabelled(s, h, CommonPool, CLEAR);
        assert s.flags[b := CLEAR] == s.flags;
      } else {
        CloseLabelled(s, h, QuarantinePool, s.flags[b].(quarantined := true));
      }
    case DeinitAndZero(h) =>
      var b := s.arenas[h].block;
      assert ArenaLabelled(s.arenas[h], s.flags[b], s.generation);
      if s.arenas[h].tier == Trusted {
        CloseLabelled(s, h, CommonPool, CLEAR);
        assert s.flags[b := CLEAR] == s.flags;
      } else {
        CloseLabelled(s, h, L2Pool, ZEROED);
      }
    case SanitizeOne(gen) => SanitizeLabelled(s, gen);
    case _ =>
  }

  /** In every run the flags say where each block is. */
  lemma {:induction false} LabelsAreTrue(s: Pools, run: seq<Op>)
    requires Inv(s) && Labelled(s) && IsRun(s, run)
    ensures Wf(After(s, run)) && Labelled(After(s, run))
    decreases |run|
  {
    if run != [] {
      ApplyInv(s, run[0]);
      ApplyLabelled(s, run[0]);
      LabelsAreTrue(Apply(s, run[0]), run[1..]);
    }
  }

  /** From boot on, every run keeps the invariant and the labels, over the same blocks. */
  lemma EveryRunFromBoot(backing: nat, n: nat, blockSize: nat, memory: seq<Byte>, run: seq<Op>)
    requires |memory| == n * blockSize
    requires IsRun(InitPools(backing, n, blockSize, memory), run)
    ensures var s := After(InitPools(backing, n, blockSize, memory), run);
            Inv(s) && Labelled(s) && |s.base| == n && forall b: nat :: b < n ==> Homes(s, b) == 1
  {
    var s := InitPools(backing, n, blockSize, memory);
    RunKeepsInv(s, run);
    LabelsAreTrue(s, run);
  }

  // ----- Live allocations never overlap

  predicate IsLive(s: Pools, h: nat, i: nat) {
    h in s.arenas && i < |s.arenas[h].allocs|
  }

  function LiveExtent(s: Pools, h: nat, i: nat): Extent
    requires IsLive(s, h, i)
  {
    s.arenas[h].allocs[i]
  }

  predicate Overlap(e: Extent, f: Extent) {
    e.start < f.start + f.len && f.start < e.start + e.len
  }

  /** In every run any two live allocations, of one arena or of two, are disjoint stretches of their blocks. */
  lemma LiveAllocationsDisjoint(backing: nat, n: nat, blockSize: nat, memory: seq<Byte>, run: seq<Op>,
                                h: nat, i: nat, k: nat, j: nat)
    requires |memory| == n * blockSize
    requires IsRun(InitPools(backing, n, blockSize, memory), run)
    requires var s := After(InitPools(backing, n, blockSize, memory), run); IsLive(s, h, i) && IsLive(s, k, j)
    ensures var s := After(InitPools(backing, n, blockSize, memory), run);
            var e := LiveExtent(s, h, i);
            && ((h, i) != (k, j) ==> !Overlap(e, LiveExtent(s, k, j)))
            && s.arenas[h].block < n
            && s.arenas[h].block * blockSize <= e.start
            && e.start + e.len <= s.arenas[h].block * blockSize + blockSize <= |memory|
  {
    var s0 := InitPools(backing, n, blockSize, memory);
    RunKeepsInv(s0, run);
    var s := After(s0, run);
    var b, c := s.arenas[h].block, s.arenas[k].block;
    assert ArenaOk(s.arenas[h], s.base[b], blockSize) && ArenaOk(s.arenas[k], s.base[c], blockSize);
    assert s.base[b] == b * blockSize && s.base[b] + blockSize <= |s.memory|;
    if h != k {
      assert b < c ==> s.base[b] + blockSize <= s.base[c];
      assert c < b ==> s.base[c] + blockSize <= s.base[b];
    }
  }

  // ----- Allocation outcomes

  /** A whole number of elements needs no rounding. */
  lemma WholeElements(elemSize: nat, align: nat, count: nat)
    requires align > 0 && elemSize % align == 0
    ensures AlignForward(elemSize * count, align) == elemSize * count
  {
    var q := elemSize / align;
    assert elemSize * count == align * (q * count);
    RoundUp(q * count, align);
  }

  lemma RoundUp(m: nat, align: nat)
    requires align > 0
    ensures AlignForward(align * m, align) == align * m
  {
    Euclid(align * m + (align - 1), m, align - 1, align);
  }

  /**
    What `alloc` returns: exactly the bytes asked for, aligned, just above the earlier
    allocations; it fails for want of memory exactly when they do not fit in the block.
  */
  lemma AllocOutcomes(s: Pools, a: Arena, elemSize: nat, align: nat, count: nat)
    requires align > 0 && elemSize % align == 0 && a.block < |s.base|
    requires elemSize * count + align - 1 <= MAX_USIZE && a.offset + elemSize * count <= MAX_USIZE
    ensures var r := AllocResult(s, a, elemSize, align, count);
            && (r.OutOfMemory? <==> a.offset + elemSize * count > s.blockSize)
            && (r.Allocated? ==> r.extent == Extent(s.base[a.block] + a.offset, elemSize * count)
                                 && (s.backing + r.extent.start) % align == 0)
            && (r.Trapped? ==> (s.backing + s.base[a.block] + a.offset) % align != 0)
  {
    WholeElements(elemSize, align, count);
  }

  lemma WholeBlocks(elemSize: nat, align: nat, count: nat)
    requires align > 0 && elemSize % align == 0
    ensures elemSize * count % align == 0
  {
    var q := elemSize / align;
    assert elemSize * count == align * (q * count);
    Euclid(elemSize * count, q * count, 0, align);
  }

  /** Whether the handle's arena, if there is one, stands at a multiple of the alignment. */
  predicate OffsetAligned(s: Pools, h: nat, align: nat)
    requires align > 0
  {
    h in s.arenas ==> s.arenas[h].offset % align == 0
  }

  /** The handle is used for allocations of one element type only. */
  predicate OneType(run: seq<Op>, h: nat, elemSize: nat, align: nat) {
    forall i :: 0 <= i < |run| && run[i].Alloc? && run[i].h == h ==>
      run[i].elemSize == elemSize && run[i].align == align
  }

  /** An arena's offset is 0 at first, and moves only by the rounded size of an allocation. */
  lemma OffsetAfter(s: Pools, op: Op, h: nat)
    requires Wf(s) && Enabled(s, op) && h in Apply(s, op).arenas
    ensures var offset := Apply(s, op).arenas[h].offset;
            || offset == 0
            || (h in s.arenas && offset == s.arenas[h].offset)
            || (&& op.Alloc? && op.h == h && h in s.arenas
                && offset == s.arenas[h].offset + AlignForward(op.elemSize * op.count, op.align))
  {
  }

  lemma StaysAligned(s: Pools, op: Op, h: nat, elemSize: nat, align: nat)
    requires Wf(s) && Enabled(s, op) && align > 0 && elemSize % align == 0
    requires OffsetAligned(s, h, align) && OneType([op], h, elemSize, align)
    ensures OffsetAligned(Apply(s, op), h, align)
  {
    assert [op][0] == op;
    if h in Apply(s, op).arenas {
      OffsetAfter(s, op, h);
      if op.Alloc? && op.h == h { AlignedSum(s.arenas[h].offset, elemSize, align, op.count); }
    }
  }

  lemma AlignedSum(offset: nat, elemSize: nat, align: nat, count: nat)
    requires align > 0 && elemSize % align == 0 && offset % align == 0
    ensures (offset + AlignForward(elemSize * count, align)) % align == 0
  {
    WholeElements(elemSize, align, count);
    WholeBlocks(elemSize, align, count);
    SumOfMultiples(offset, elemSize * count, align);
  }

  lemma BlockAligned(backing: nat, blockSize: nat, align: nat, b: nat)
    requires align > 0 && backing % align == 0 && blockSize % align == 0
    ensures (backing + b * blockSize) % align == 0
  {
    WholeBlocks(blockSize, align, b);
    SumOfMultiples(backing, b * blockSize, align);
  }

  lemma {:induction false} RunStaysAligned(s: Pools, run: seq<Op>, h: nat, elemSize: nat, align: nat)
    requires Inv(s) && IsRun(s, run) && align > 0 && elemSize % align == 0
    requires OffsetAligned(s, h, align) && OneType(run, h, elemSize, align)
    ensures OffsetAligned(After(s, run), h, align)
    decreases |run|
  {
    if run != [] {
      ApplyInv(s, run[0]);
      StaysAligned(s, run[0], h, elemSize, align);
      RunStaysAligned(Apply(s, run[0]), run[1..], h, elemSize, align);
    }
  }

  lemma NoTrapWhenAligned(s: Pools, a: Arena, elemSize: nat, align: nat, count: nat)
    requires align > 0 && elemSize % align == 0 && a.block < |s.base|
    requires (s.backing + s.base[a.block]) % align == 0 && a.offset % align == 0
    ensures AllocResult(s, a, elemSize, align, count).Trapped? <==>
            elemSize * count + align - 1 > MAX_USIZE || a.offset + elemSize * count > MAX_USIZE
  {
    WholeElements(elemSize, align, count);
    SumOfMultiples(s.backing + s.base[a.block], a.offset, align);
  }

  /**
    With an aligned backing region and block size, an arena that allocates one element type only
    never traps in its whole life, but for requests whose size overflows.  The handle is free after
    any run from boot, and `more` is all that happens from then on.
  */
  lemma OneTypeNeverTraps(backing: nat, n: nat, blockSize: nat, memory: seq<Byte>, run: seq<Op>, more: seq<Op>,
                          h: nat, elemSize: nat, align: nat, count: nat)
    requires |memory| == n * blockSize && align > 0 && elemSize % align == 0
    requires backing % align == 0 && blockSize % align == 0
    requires IsRun(InitPools(backing, n, blockSize, memory), run)
    requires var s := After(InitPools(backing, n, blockSize, memory), run);
             && h !in s.arenas && Inv(s) && IsRun(s, more) && OneType(more, h, elemSize, align)
    ensures var t := After(After(InitPools(backing, n, blockSize, memory), run), more);
            h in t.arenas ==>
              && t.arenas[h].block < |t.base|
              && (AllocResult(t, t.arenas[h], elemSize, align, count).Trapped? <==>
                    elemSize * count + align - 1 > MAX_USIZE || t.arenas[h].offset + elemSize * count > MAX_USIZE)
  {
    var s0 := InitPools(backing, n, blockSize, memory);
    RunKeepsInv(s0, run);
    var s := After(s0, run);
    RunKeepsInv(s, more);
    RunStaysAligned(s, more, h, elemSize, align);
    var t := After(s, more);
    if h in t.arenas { TrapsOnOverflow(t, h, backing, blockSize, elemSize, align, count); }
  }

  lemma TrapsOnOverflow(t: Pools, h: nat, backing: nat, blockSize: nat, elemSize: nat, align: nat, count: nat)
    requires align > 0 && elemSize % align == 0 && backing % align == 0 && blockSize % align == 0
    requires h in t.arenas && OffsetAligned(t, h, align) && t.arenas[h].block < |t.base|
    requires t.backing == backing && t.base[t.arenas[h].block] == t.arenas[h].block * blockSize
    ensures AllocResult(t, t.arenas[h], elemSize, align, count).Trapped? <==>
            elemSize * count + align - 1 > MAX_USIZE || t.arenas[h].offset + elemSize * count > MAX_USIZE
  {
    BlockAligned(backing, blockSize, align, t.arenas[h].block);
    NoTrapWhenAligned(t, t.arenas[h], elemSize, align, count);
  }

  lemma SumOfMultiples(x: nat, y: nat, align: nat)
    requires align > 0 && x % align == 0 && y % align == 0
    ensures (x + y) % align == 0
  {
    var p, q := x / align, y / align;
    assert x + y == align * (p + q);
    Euclid(x + y, p + q, 0, align);
  }

  // ----- What the L2 list holds

  predicate BlockIsZero(s: Pools, b: nat) {
    b < |s.base| && forall p :: s.base[b] <= p < s.base[b] + s.blockSize && p < |s.memory| ==> s.memory[p] == 0
  }

  predicate L2Clean(s: Pools) {
    forall i :: 0 <= i < |s.l2| ==> BlockIsZero(s, s.l2[i])
  }

  /** Retiring an untrusted arena through `deinitAndZero` while its block holds data. */
  predicate Bypasses(s: Pools, op: Op) {
    && op.DeinitAndZero? && op.h in s.arenas && s.arenas[op.h].tier == Untrusted
    && !BlockIsZero(s, s.arenas[op.h].block)
  }

  lemma WriteInBounds(s: Pools, h: nat, pos: nat, value: Byte)
    requires Inv(s) && Enabled(s, Write(h, pos, value))
    ensures pos < |s.memory|
  {
  }

  /** A client writes only into its own block. */
  lemma WriteStaysInside(s: Pools, h: nat, pos: nat, value: Byte, b: nat)
    requires Inv(s) && Enabled(s, Write(h, pos, value)) && b < |s.base| && b != s.arenas[h].block
    ensures !(s.base[b] <= pos < s.base[b] + s.blockSize)
  {
  }

  /** No memory is written, or only zeros are. */
  predicate OnlyZeroed(s: Pools, t: Pools) {
    && t.base == s.base && t.blockSize == s.blockSize && |t.memory| == |s.memory|
    && forall p :: 0 <= p < |s.memory| ==> t.memory[p] == s.memory[p] || t.memory[p] == 0
  }

  /** Only clients' writes store anything but zeros. */
  lemma OthersOnlyZero(s: Pools, op: Op)
    requires Wf(s) && Enabled(s, op) && !op.Write?
    ensures OnlyZeroed(s, Apply(s, op))
  {
  }

  lemma StaysClean(s: Pools, t: Pools)
    requires L2Clean(s) && OnlyZeroed(s, t)
    requires forall i :: 0 <= i < |t.l2| ==> t.l2[i] in s.l2 || BlockIsZero(t, t.l2[i])
    ensures L2Clean(t)
  {
  }

  lemma WriteStaysClean(s: Pools, h: nat, pos: nat, value: Byte)
    requires Inv(s) && Enabled(s, Write(h, pos, value)) && L2Clean(s)
    ensures L2Clean(Apply(s, Write(h, pos, value)))
  {
    var t := Apply(s, Write(h, pos, value));
    forall i | 0 <= i < |t.l2| ensures BlockIsZero(t, t.l2[i]) {
      var b := t.l2[i];
      assert BlockIsZero(s, b) && b in s.l2;
      ListedOnce(s, b);
      assert InArena(s.arenas, s.arenas[h].block);
      WriteStaysInside(s, h, pos, value, b);
    }
  }

  /** Exactly when an operation leaves data on the L2 list: untrusted `deinitAndZero` clears nothing. */
  lemma L2StaysCleanUnlessBypassed(s: Pools, op: Op)
    requires Inv(s) && Enabled(s, op) && L2Clean(s)
    ensures L2Clean(Apply(s, op)) <==> !Bypasses(s, op)
  {
    var t := Apply(s, op);
    if op.Write? {
      WriteStaysClean(s, op.h, op.pos, op.value);
    } else if Bypasses(s, op) {
      assert t.l2[0] == s.arenas[op.h].block && !BlockIsZero(t, t.l2[0]);
    } else {
      OthersOnlyZero(s, op);
      assert forall i :: 0 <= i < |s.l2| ==> s.l2[i] in s.l2;
      assert op.DeinitAndZero? && s.arenas[op.h].tier == Untrusted ==> BlockIsZero(t, s.arenas[op.h].block);
      StaysClean(s, t);
    }
  }

  /** Zeroing clears one block and nothing else; only trusted retirement and sanitizing zero. */
  lemma ZeroingIsLocal(s: Pools, op: Op, b: nat)
    requires Inv(s) && Enabled(s, op) && b < |s.base|
    requires || (op.DeinitAndZero? && s.arenas[op.h].tier == Trusted && s.arenas[op.h].block == b)
             || (op.SanitizeOne? && CanPopSafe(s, op.gen) && s.quarantine[0] == b)
    ensures var t := Apply(s, op);
            && |t.memory| == |s.memory| && BlockIsZero(t, b)
            && forall p :: 0 <= p < |s.memory| && !(s.base[b] <= p < s.base[b] + s.blockSize) ==>
                 t.memory[p] == s.memory[p]
  {
  }

  predicate NeverBypasses(s: Pools, run: seq<Op>)
    requires Inv(s) && IsRun(s, run)
    decreases |run|
  {
    run == [] || (!Bypasses(s, run[0]) && (ApplyInv(s, run[0]); NeverBypasses(Apply(s, run[0]), run[1..])))
  }

  /**
    Sanitization: in every run in which untrusted arenas retire through `deinit` (or hold only
    zeros when they do not), every block offered for untrusted reuse is all zeros.
  */
  lemma {:induction false} L2CleanInEveryRun(s: Pools, run: seq<Op>)
    requires Inv(s) && IsRun(s, run) && L2Clean(s) && NeverBypasses(s, run)
    ensures L2Clean(After(s, run))
    decreases |run|
  {
    if run != [] {
      ApplyInv(s, run[0]);
      L2StaysCleanUnlessBypassed(s, run[0]);
      L2CleanInEveryRun(Apply(s, run[0]), run[1..]);
    }
  }

  // ----- What the common list holds

  predicate CommonClean(s: Pools) {
    forall i :: 0 <= i < |s.common| ==> BlockIsZero(s, s.common[i])
  }

  /** Retiring a trusted arena through `deinit` while its block holds data. */
  predicate LeavesData(s: Pools, op: Op) {
    && op.Deinit? && op.h in s.arenas && s.arenas[op.h].tier == Trusted
    && !BlockIsZero(s, s.arenas[op.h].block)
  }

  lemma WriteKeepsCommonClean(s: Pools, h: nat, pos: nat, value: Byte)
    requires Inv(s) && Enabled(s, Write(h, pos, value)) && CommonClean(s)
    ensures CommonClean(Apply(s, Write(h, pos, value)))
  {
    var t := Apply(s, Write(h, pos, value));
    forall i | 0 <= i < |t.common| ensures BlockIsZero(t, t.common[i]) {
      var b := t.common[i];
      assert BlockIsZero(s, b) && b in s.common;
      ListedOnce(s, b);
      assert InArena(s.arenas, s.arenas[h].block);
      WriteStaysInside(s, h, pos, value, b);
    }
  }

  lemma StaysCommonClean(s: Pools, t: Pools)
    requires CommonClean(s) && OnlyZeroed(s, t)
    requires forall i :: 0 <= i < |t.common| ==> t.common[i] in s.common || BlockIsZero(t, t.common[i])
    ensures CommonClean(t)
  {
  }

  /** Exactly when an operation leaves data on the common list. */
  lemma CommonStaysCleanUnlessLeft(s: Pools, op: Op)
    requires Inv(s) && Enabled(s, op) && CommonClean(s)
    ensures CommonClean(Apply(s, op)) <==> !LeavesData(s, op)
  {
    var t := Apply(s, op);
    if op.Write? {
      WriteKeepsCommonClean(s, op.h, op.pos, op.value);
    } else if LeavesData(s, op) {
      assert t.common[0] == s.arenas[op.h].block && !BlockIsZero(t, t.common[0]);
    } else {
      OthersOnlyZero(s, op);
      assert forall i :: 0 <= i < |s.common| ==> s.common[i] in s.common;
      if op.DeinitAndZero? && s.arenas[op.h].tier == Trusted { ZeroingIsLocal(s, op, s.arenas[op.h].block); }
      StaysCommonClean(s, t);
    }
  }

  predicate NeverLeavesData(s: Pools, run: seq<Op>)
    requires Inv(s) && IsRun(s, run)
    decreases |run|
  {
    run == [] || (!LeavesData(s, run[0]) && (ApplyInv(s, run[0]); NeverLeavesData(Apply(s, run[0]), run[1..])))
  }

  /** In every run whose trusted arenas retire through `deinitAndZero`, or hold zeros, the common list is all zeros. */
  lemma {:induction false} CommonCleanInEveryRun(s: Pools, run: seq<Op>)
    requires Inv(s) && IsRun(s, run) && CommonClean(s) && NeverLeavesData(s, run)
    ensures CommonClean(After(s, run))
    decreases |run|
  {
    if run != [] {
      ApplyInv(s, run[0]);
      CommonStaysCleanUnlessLeft(s, run[0]);
      CommonCleanInEveryRun(Apply(s, run[0]), run[1..]);
    }
  }

  /**
    No leakage between tiers: after every run from zeroed memory that takes neither shortcut, an
    arena opens on a block of zeros, except that an untrusted arena that finds the L2 and the
    common list empty gets the top of the quarantine as its last user left it.
  */
  lemma ArenasOpenOnZeros(backing: nat, n: nat, blockSize: nat, run: seq<Op>, h: nat, tier: Tier)
    requires IsRun(ZeroedPools(backing, n, blockSize), run)
    requires NeverBypasses(ZeroedPools(backing, n, blockSize), run)
    requires NeverLeavesData(ZeroedPools(backing, n, blockSize), run)
    requires h !in After(ZeroedPools(backing, n, blockSize), run).arenas
    requires PickPool(After(ZeroedPools(backing, n, blockSize), run), tier).Some?
    ensures var s := After(ZeroedPools(backing, n, blockSize), run);
            && Inv(s)
            && h in Apply(s, InitArena(h, tier)).arenas
            && (BlockIsZero(Apply(s, InitArena(h, tier)), Apply(s, InitArena(h, tier)).arenas[h].block) <==>
                  s.l2 != [] || s.common != [] || BlockIsZero(s, s.quarantine[0]))
  {
    var s0 := ZeroedPools(backing, n, blockSize);
    RunKeepsInv(s0, run);
    L2CleanInEveryRun(s0, run);
    CommonCleanInEveryRun(s0, run);
    OpenOnZeros(After(s0, run), h, tier);
  }

  /** The pools at boot: freshly mapped memory is zero. */
  function ZeroedPools(backing: nat, n: nat, blockSize: nat): (s: Pools)
    ensures Inv(s) && L2Clean(s) && CommonClean(s)
  {
    InitPools(backing, n, blockSize, seq(n * blockSize, _ => 0))
  }

  lemma OpenOnZeros(s: Pools, h: nat, tier: Tier)
    requires Inv(s) && L2Clean(s) && CommonClean(s) && h !in s.arenas && PickPool(s, tier).Some?
    ensures var t := Apply(s, InitArena(h, tier));
            && h in t.arenas
            && (BlockIsZero(t, t.arenas[h].block) <==>
                  s.l2 != [] || s.common != [] || BlockIsZero(s, s.quarantine[0]))
  {
    var p := PickPool(s, tier).value;
    var b := ListOf(s, p)[0];
    assert Apply(s, InitArena(h, tier)).arenas[h].block == b;
    assert BlockIsZero(Apply(s, InitArena(h, tier)), b) <==> BlockIsZero(s, b);
  }

  lemma {:induction false} Extend(s: Pools, run: seq<Op>, op: Op)
    requires Inv(s) && IsRun(s, run) && Enabled(After(s, run), op) && Inv(After(s, run))
    ensures IsRun(s, run + [op]) && After(s, run + [op]) == Apply(After(s, run), op)
    ensures Inv(After(s, run + [op]))
    decreases |run|
  {
    ApplyInv(After(s, run), op);
    if run == [] {
      assert [op][1..] == [];
    } else {
      ApplyInv(s, run[0]);
      Extend(Apply(s, run[0]), run[1..], op);
      assert (run + [op])[1..] == run[1..] + [op];
    }
  }

  /** One one-byte block, opened by an untrusted client. */
  lemma OpenedArena() returns (s: Pools, run: seq<Op>)
    ensures Inv(s) && IsRun(s, run) && Inv(After(s, run))
    ensures var t := After(s, run);
            && t.base == [0] && t.blockSize == 1 && t.backing == 0 && |t.memory| == 1
            && 0 in t.arenas && t.arenas[0] == Arena(Untrusted, 0, 1, 0, [])
  {
    s := InitPools(0, 1, 1, [0]);
    assert s.common == [0] && s.base == [0];
    Extend(s, [], InitArena(0, Untrusted));
    run := [] + [InitArena(0, Untrusted)];
  }

  lemma AllocatedByte(s: Pools)
    requires Inv(s) && s.base == [0] && s.blockSize == 1 && s.backing == 0
    requires 0 in s.arenas && s.arenas[0] == Arena(Untrusted, 0, 1, 0, [])
    ensures Enabled(s, Alloc(0, 1, 1, 1))
    ensures var t := Apply(s, Alloc(0, 1, 1, 1));
            && 0 in t.arenas && t.arenas[0] == Arena(Untrusted, 0, 1, 1, [Extent(0, 1)])
            && t.base == s.base && t.memory == s.memory && t.blockSize == 1
  {
  }

  /** The client allocates the byte ... */
  lemma AllocatedArena() returns (s: Pools, run: seq<Op>)
    ensures Inv(s) && IsRun(s, run) && Inv(After(s, run))
    ensures var t := After(s, run);
            && t.base == [0] && t.blockSize == 1 && |t.memory| == 1
            && 0 in t.arenas && t.arenas[0] == Arena(Untrusted, 0, 1, 1, [Extent(0, 1)])
  {
    s, run := OpenedArena();
    AllocatedByte(After(s, run));
    Extend(s, run, Alloc(0, 1, 1, 1));
    run := run + [Alloc(0, 1, 1, 1)];
  }

  /** ... and stores a 7 in it. */
  lemma DirtyArena() returns (s: Pools, run: seq<Op>)
    ensures Inv(s) && IsRun(s, run) && Inv(After(s, run))
    ensures var t := After(s, run);
            0 in t.arenas && t.arenas[0].tier == Untrusted && t.arenas[0].block == 0 && !BlockIsZero(t, 0)
  {
    s, run := AllocatedArena();
    var t := After(s, run);
    assert Inside(0, t.arenas[0].allocs[0]);
    Extend(s, run, Write(0, 0, 7));
    run := run + [Write(0, 0, 7)];
    assert After(s, run) == t.(memory := t.memory[0 := 7]);
    assert After(s, run).memory[0] == 7;
  }

  /** A run whose bypass puts a block on the L2 list that is flagged zeroed and holds data. */
  lemma BypassLeavesData() returns (s: Pools, run: seq<Op>)
    ensures Inv(s) && IsRun(s, run) && Inv(After(s, run))
    ensures var t := After(s, run); 0 in t.l2 && t.flags[0] == ZEROED && !BlockIsZero(t, 0)
  {
    s, run := DirtyArena();
    var t := After(s, run);
    Extend(s, run, DeinitAndZero(0));
    run := run + [DeinitAndZero(0)];
    assert After(s, run).l2 == [0] + t.l2;
    assert 0 in [0] + t.l2;
  }

  // ----- Draining the quarantine

  /** `k` calls of `sanitizeOne` with the same generation. */
  function Sanitized(s: Pools, gen: nat, k: nat): (t: Pools)
    requires Wf(s)
    ensures Wf(t)
  {
    if k == 0 then s else Apply(Sanitized(s, gen, k - 1), SanitizeOne(gen))
  }

  function Reversed(list: seq<nat>): seq<nat> {
    if list == [] then [] else Reversed(list[1..]) + [list[0]]
  }

  lemma {:induction false} ReversedSnoc(list: seq<nat>, b: nat)
    ensures Reversed(list + [b]) == [b] + Reversed(list)
  {
    if list != [] {
      assert (list + [b])[1..] == list[1..] + [b];
      ReversedSnoc(list[1..], b);
    } else {
      assert [b][1..] == [];
    }
  }

  lemma ReversedStep(list: seq<nat>, under: seq<nat>, k: nat)
    requires 0 < k <= |list|
    ensures [list[k - 1]] + (Reversed(list[..k - 1]) + under) == Reversed(list[..k]) + under
  {
    assert list[..k] == list[..k - 1] + [list[k - 1]];
    ReversedSnoc(list[..k - 1], list[k - 1]);
  }

  /** The top of the quarantine is the most recent: if it is eligible, so is everything below. */
  lemma TopDecides(s: Pools, gen: nat, i: nat)
    requires Inv(s) && CanPopSafe(s, gen) && i < |s.quarantine|
    ensures Eligible(s, s.quarantine[i], gen)
  {
  }

  /** The first `k` calls each move the top block to the L2 list. */
  lemma {:induction false} DrainPrefix(s: Pools, gen: nat, k: nat)
    requires Inv(s) && CanPopSafe(s, gen) && k <= |s.quarantine|
    ensures var t := Sanitized(s, gen, k);
            && t.quarantine == s.quarantine[k..]
            && t.l2 == Reversed(s.quarantine[..k]) + s.l2
            && t.sanitized == s.sanitized + k
            && t.retired == s.retired
            && (k < |s.quarantine| ==> CanPopSafe(t, gen))
  {
    if k > 0 {
      DrainPrefix(s, gen, k - 1);
      assert s.quarantine[k - 1..][1..] == s.quarantine[k..];
      ReversedStep(s.quarantine, s.l2, k);
    }
    if k < |s.quarantine| {
      TopDecides(s, gen, k);
      assert s.quarantine[k..][0] == s.quarantine[k];
    } else {
      assert s.quarantine[k..] == [];
    }
  }

  lemma {:induction false} DrainsAll(s: Pools, gen: nat, k: nat)
    requires Inv(s) && CanPopSafe(s, gen) && k >= |s.quarantine|
    ensures var t := Sanitized(s, gen, k);
            && t.quarantine == [] && t.l2 == Reversed(s.quarantine) + s.l2
            && t.sanitized == s.sanitized + |s.quarantine|
  {
    if k == |s.quarantine| {
      DrainPrefix(s, gen, k);
      assert s.quarantine[..k] == s.quarantine;
    } else {
      DrainsAll(s, gen, k - 1);
    }
  }

  lemma {:induction false} DrainsNothing(s: Pools, gen: nat, k: nat)
    requires Inv(s) && !CanPopSafe(s, gen)
    ensures Sanitized(s, gen, k) == s
  {
    if k > 0 { DrainsNothing(s, gen, k - 1); }
  }

  /**
    All or nothing: with no new retirements, calls at one generation sanitize the whole
    quarantine in exactly as many successful calls as it has blocks, or sanitize nothing ever.
  */
  lemma DrainsAllOrNothing(s: Pools, gen: nat)
    requires Inv(s)
    ensures || (forall k: nat :: Sanitized(s, gen, k) == s)
            || (&& (forall k: nat :: k < |s.quarantine| ==> CanPopSafe(Sanitized(s, gen, k), gen))
                && (forall k: nat :: k >= |s.quarantine| ==>
                      && Sanitized(s, gen, k).quarantine == []
                      && Sanitized(s, gen, k).l2 == Reversed(s.quarantine) + s.l2
                      && Sanitized(s, gen, k).sanitized == s.sanitized + |s.quarantine|))
  {
    if CanPopSafe(s, gen) {
      forall k: nat | k < |s.quarantine| ensures CanPopSafe(Sanitized(s, gen, k), gen) { DrainPrefix(s, gen, k); }
      forall k: nat | k >= |s.quarantine|
        ensures && Sanitized(s, gen, k).quarantine == []
                && Sanitized(s, gen, k).l2 == Reversed(s.quarantine) + s.l2
                && Sanitized(s, gen, k).sanitized == s.sanitized + |s.quarantine|
      { DrainsAll(s, gen, k); }
    } else {
      forall k: nat ensures Sanitized(s, gen, k) == s { DrainsNothing(s, gen, k); }
    }
  }

  predicate RetiresUntrusted(s: Pools, op: Op) {
    op.Deinit? && op.h in s.arenas && s.arenas[op.h].tier == Untrusted
  }

  predicate NoNewQuarantine(s: Pools, run: seq<Op>)
    requires Inv(s) && IsRun(s, run)
    decreases |run|
  {
    run == [] || (!RetiresUntrusted(s, run[0]) && (ApplyInv(s, run[0]); NoNewQuarantine(Apply(s, run[0]), run[1..])))
  }

  function Increments(run: seq<Op>): nat {
    if run == [] then 0 else (if run[0].IncrementGeneration? then 1 else 0) + Increments(run[1..])
  }

  predicate RetiredBy(s: Pools, gen: nat) {
    forall i :: 0 <= i < |s.quarantine| && s.quarantine[i] < |s.retired| ==> s.retired[s.quarantine[i]] <= gen
  }

  lemma {:induction false} GenerationsPass(s: Pools, run: seq<Op>, gen: nat)
    requires Inv(s) && IsRun(s, run) && NoNewQuarantine(s, run) && RetiredBy(s, gen)
    ensures After(s, run).generation == s.generation + Increments(run)
    ensures RetiredBy(After(s, run), gen)
    decreases |run|
  {
    if run != [] {
      ApplyInv(s, run[0]);
      var t := Apply(s, run[0]);
      assert t.quarantine == s.quarantine || (s.quarantine != [] && t.quarantine == s.quarantine[1..]);
      assert RetiredBy(t, gen);
      GenerationsPass(t, run[1..], gen);
    }
  }

  /**
    Two generations after the last untrusted retirement, sanitizing at the current generation
    empties the quarantine, in as many calls as it has blocks, whatever else happened meanwhile.
  */
  lemma TwoGenerationsDrain(s: Pools, run: seq<Op>)
    requires Inv(s) && IsRun(s, run) && NoNewQuarantine(s, run) && Increments(run) >= 2
    ensures var t := After(s, run);
            && Inv(t)
            && var u := Sanitized(t, t.generation, |t.quarantine|);
               u.quarantine == [] && u.sanitized == t.sanitized + |t.quarantine| && |u.l2| == |t.l2| + |t.quarantine|
  {
    RunKeepsInv(s, run);
    GenerationsPass(s, run, s.generation);
    var t := After(s, run);
    if t.quarantine != [] {
      assert CanPopSafe(t, t.generation);
      DrainsAll(t, t.generation, |t.quarantine|);
      ReversedLength(t.quarantine);
    }
  }

  lemma {:induction false} ReversedLength(list: seq<nat>)
    ensures |Reversed(list)| == |list|
  {
    if list != [] { ReversedLength(list[1..]); }
  }

  // ----- The grace period

  /** Sanitizing uses no generation that has not come yet. */
  predicate OnTime(s: Pools, run: seq<Op>)
    requires Inv(s) && IsRun(s, run)
    decreases |run|
  {
    run == [] ||
    (&& (run[0].SanitizeOne? ==> run[0].gen <= s.generation)
     && (ApplyInv(s, run[0]); OnTime(Apply(s, run[0]), run[1..])))
  }

  predicate SameBlock(s: Pools, t: Pools, b: nat)
    requires b < |s.base|
  {
    && t.base == s.base && t.blockSize == s.blockSize && |t.memory| == |s.memory|
    && forall p :: s.base[b] <= p < s.base[b] + s.blockSize && p < |s.memory| ==> t.memory[p] == s.memory[p]
  }

  /** While the generation is less than two ahead of a quarantined block, nothing leaves the quarantine. */
  lemma GraceStep(s: Pools, op: Op, b: nat)
    requires Inv(s) && Enabled(s, op) && b in s.quarantine && b < |s.retired|
    requires s.generation < s.retired[b] + 2 && (op.SanitizeOne? ==> op.gen <= s.generation)
    ensures var t := Apply(s, op);
            && b in t.quarantine && b < |t.retired| && t.retired[b] == s.retired[b]
            && t.generation == s.generation + if op.IncrementGeneration? then 1 else 0
  {
    var i :| 0 <= i < |s.quarantine| && s.quarantine[i] == b;
    assert s.retired[s.quarantine[0]] >= s.retired[b] by {
      assert i > 0 ==> s.retired[s.quarantine[i]] <= s.retired[s.quarantine[0]];
    }
    if op.Deinit? && s.arenas[op.h].tier == Untrusted {
      NotInArenas(s, b);
      assert b in [s.arenas[op.h].block] + s.quarantine;
    }
  }

  /** And the block keeps its contents. */
  lemma GraceMemory(s: Pools, op: Op, b: nat)
    requires Inv(s) && Enabled(s, op) && b in s.quarantine && b < |s.retired|
    requires s.generation < s.retired[b] + 2 && (op.SanitizeOne? ==> op.gen <= s.generation)
    ensures SameBlock(s, Apply(s, op), b)
  {
    NotInArenas(s, b);
    GraceStep(s, op, b);
    var i :| 0 <= i < |s.quarantine| && s.quarantine[i] == b;
    assert i > 0 ==> s.retired[s.quarantine[i]] <= s.retired[s.quarantine[0]];
    if op.Write? { WriteStaysInside(s, op.h, op.pos, op.value, b); }
    if op.DeinitAndZero? && s.arenas[op.h].tier == Trusted { BlocksApart(s, s.arenas[op.h].block, b); }
  }

  lemma BlocksApart(s: Pools, b: nat, c: nat)
    requires Layout(s) && b < |s.base| && c < |s.base| && b != c
    ensures s.base[b] + s.blockSize <= s.base[c] || s.base[c] + s.blockSize <= s.base[b]
  {
  }

  lemma {:induction false} GraceRun(s: Pools, run: seq<Op>, b: nat)
    requires Inv(s) && IsRun(s, run) && OnTime(s, run) && b in s.quarantine && b < |s.retired|
    requires s.generation + Increments(run) < s.retired[b] + 2
    ensures b in After(s, run).quarantine && SameBlock(s, After(s, run), b)
    decreases |run|
  {
    if run != [] {
      var t := Apply(s, run[0]);
      ApplyInv(s, run[0]);
      GraceStep(s, run[0], b);
      GraceMemory(s, run[0], b);
      GraceRun(t, run[1..], b);
    }
  }

  /**
    The grace period: after an untrusted arena retires, and until two increments of the generation
    later, its block stays in the quarantine with its contents, on no other list and in no arena.
  */
  lemma GracePeriod(s: Pools, h: nat, run: seq<Op>)
    requires Inv(s) && h in s.arenas && s.arenas[h].tier == Untrusted
    requires Inv(Apply(s, Deinit(h))) && IsRun(Apply(s, Deinit(h)), run) && OnTime(Apply(s, Deinit(h)), run)
    requires Increments(run) < 2
    ensures var t, b := After(Apply(s, Deinit(h)), run), s.arenas[h].block;
            && b in t.quarantine && b !in t.common && b !in t.l2
            && (forall k :: k in t.arenas ==> t.arenas[k].block != b)
            && SameBlock(s, t, b)
  {
    var u, b := Apply(s, Deinit(h)), s.arenas[h].block;
    assert u.quarantine[0] == b;
    GraceRun(u, run, b);
    var t := After(u, run);
    RunKeepsInv(u, run);
    ListedOnce(t, b);
    NotInArenas(t, b);
  }

  // ----- Where arenas get their blocks

  /**
    `Arena.init`: common blocks are spared for trusted code while sanitized ones are left, and the
    quarantine is touched last, for a block two generations old; the arena starts empty at the
    present generation, and its block's flags say where it came from.
  */
  lemma InitTakes(s: Pools, h: nat, tier: Tier)
    requires Inv(s) && h !in s.arenas
    ensures var t := Apply(s, InitArena(h, tier));
            var ripe := tier == Untrusted && s.l2 == [] && s.common == [] &&
                        s.quarantine != [] && s.quarantine[0] < |s.retired| &&
                        s.generation >= s.retired[s.quarantine[0]] + 2;
            if tier == Untrusted && s.l2 != [] then
              && h in t.arenas && t.arenas[h] == Arena(Untrusted, s.l2[0], s.generation, 0, [])
              && t.l2 == s.l2[1..] && t.common == s.common && t.quarantine == s.quarantine
              && t.flags == s.flags[s.l2[0] := Flags(false, true, false)]
            else if s.common != [] then
              && h in t.arenas && t.arenas[h] == Arena(tier, s.common[0], s.generation, 0, [])
              && t.common == s.common[1..] && t.l2 == s.l2 && t.quarantine == s.quarantine
              && t.flags == s.flags[s.common[0] := Flags(tier == Untrusted, false, false)]
            else if ripe then
              && h in t.arenas && t.arenas[h] == Arena(Untrusted, s.quarantine[0], s.generation, 0, [])
              && t.quarantine == s.quarantine[1..] && t.common == s.common && t.l2 == s.l2
              && t.flags == s.flags[s.quarantine[0] := Flags(false, true, false)]
            else t == s
  {
  }

  /** The block a trusted arena gives back is the next one a trusted arena gets. */
  lemma LastBackFirstOut(s: Pools, h: nat, k: nat)
    requires Inv(s) && h in s.arenas && s.arenas[h].tier == Trusted && (k == h || k !in s.arenas)
    ensures Wf(Apply(s, Deinit(h))) && Enabled(Apply(s, Deinit(h)), InitArena(k, Trusted))
    ensures var t := Apply(Apply(s, Deinit(h)), InitArena(k, Trusted));
            k in t.arenas && t.arenas[k].block == s.arenas[h].block && t.common == s.common
  {
    ApplyInv(s, Deinit(h));
    InitTakes(Apply(s, Deinit(h)), k, Trusted);
  }

  // ----- The sanitized total

  /** How many untrusted arenas a run retires into the quarantine. */
  function Retirements(s: Pools, run: seq<Op>): nat
    requires Inv(s) && IsRun(s, run)
    decreases |run|
  {
    if run == [] then 0
    else
      ApplyInv(s, run[0]);
      (if RetiresUntrusted(s, run[0]) then 1 else 0) + Retirements(Apply(s, run[0]), run[1..])
  }

  /** How many untrusted arenas a run opens on a block straight from the quarantine. */
  function Rescues(s: Pools, run: seq<Op>): nat
    requires Inv(s) && IsRun(s, run)
    decreases |run|
  {
    if run == [] then 0
    else
      ApplyInv(s, run[0]);
      (if run[0].InitArena? && |Apply(s, run[0]).quarantine| < |s.quarantine| then 1 else 0)
      + Rescues(Apply(s, run[0]), run[1..])
  }

  lemma QuarantineFlow(s: Pools, op: Op)
    requires Inv(s) && Enabled(s, op)
    ensures var t := Apply(s, op);
            t.sanitized + |t.quarantine| + (if op.InitArena? && |t.quarantine| < |s.quarantine| then 1 else 0) ==
            s.sanitized + |s.quarantine| + if RetiresUntrusted(s, op) then 1 else 0
  {
  }

  /** Conservation: what a run quarantines is still there, was sanitized, or went straight to an arena. */
  lemma {:induction false} SanitizedTotal(s: Pools, run: seq<Op>)
    requires Inv(s) && IsRun(s, run)
    ensures After(s, run).sanitized + |After(s, run).quarantine| + Rescues(s, run) ==
            s.sanitized + |s.quarantine| + Retirements(s, run)
    decreases |run|
  {
    if run != [] {
      ApplyInv(s, run[0]);
      QuarantineFlow(s, run[0]);
      SanitizedTotal(Apply(s, run[0]), run[1..]);
    }
  }
}
