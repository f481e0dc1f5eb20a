/**
  The arena pools as the program keeps them: block records linked through `pool_next`, three
  stack heads with counters, and one backing region, all updated in place.  Every method is
  proved against the state machine of `ArenaModel`.

  The compare-and-swap loops run once here, because nothing else runs in between; their
  interleavings are the subject of `PoolSteps`.
*/
module ArenaPools {
  import opened ArenaModel
  import opened Bytes
  import opened Outcomes
  import opened Sequences
  import PoolSteps

  datatype ArenaBlock = ArenaBlock(base: nat, capacity: nat, flags: Flags, retiredGen: nat, next: Option<nat>)

  datatype PoolStats = PoolStats(commonFree: nat, quarantinePending: nat, l2Free: nat, totalSanitized: nat)

  function Nexts(blocks: seq<ArenaBlock>): seq<Option<nat>> {
    seq(|blocks|, (i: nat) requires i < |blocks| => blocks[i].next)
  }

  function Bases(blocks: seq<ArenaBlock>): seq<nat> {
    seq(|blocks|, (i: nat) requires i < |blocks| => blocks[i].base)
  }

  function AllFlags(blocks: seq<ArenaBlock>): seq<Flags> {
    seq(|blocks|, (i: nat) requires i < |blocks| => blocks[i].flags)
  }

  function RetiredGens(blocks: seq<ArenaBlock>): seq<nat> {
    seq(|blocks|, (i: nat) requires i < |blocks| => blocks[i].retiredGen)
  }

  /** Following the links from `head` gives `list`, and the counter is its length. */
  predicate Stacked(blocks: seq<ArenaBlock>, head: Option<nat>, count: nat, list: seq<nat>) {
    PoolSteps.Chain(head, Nexts(blocks), list) && count == |list|
  }

  // ----- Stack links under single-record updates

  lemma FieldUpdate(blocks: seq<ArenaBlock>, b: nat, r: ArenaBlock)
    requires b < |blocks|
    ensures Nexts(blocks[b := r]) == Nexts(blocks)[b := r.next]
    ensures Bases(blocks[b := r]) == Bases(blocks)[b := r.base]
    ensures AllFlags(blocks[b := r]) == AllFlags(blocks)[b := r.flags]
    ensures RetiredGens(blocks[b := r]) == RetiredGens(blocks)[b := r.retiredGen]
  {
  }

  /** Changing only flags and link. */
  lemma FlagsUpdate(blocks: seq<ArenaBlock>, b: nat, flags: Flags, next: Option<nat>)
    requires b < |blocks|
    ensures var blocks' := blocks[b := blocks[b].(flags := flags, next := next)];
            && Bases(blocks') == Bases(blocks) && RetiredGens(blocks') == RetiredGens(blocks)
            && AllFlags(blocks') == AllFlags(blocks)[b := flags]
  {
  }

  /** Writing a record leaves every stack alone that does not hold it, or whose link it keeps. */
  lemma StackedFrame(blocks: seq<ArenaBlock>, head: Option<nat>, count: nat, list: seq<nat>, b: nat, r: ArenaBlock)
    requires Stacked(blocks, head, count, list) && b < |blocks|
    requires b !in list || r.next == blocks[b].next
    ensures Stacked(blocks[b := r], head, count, list)
  {
    FieldUpdate(blocks, b, r);
    var next, next' := Nexts(blocks), Nexts(blocks[b := r]);
    forall i | 0 <= i < |list| ensures next'[list[i]] == next[list[i]] {}
  }

  lemma StackedPush(blocks: seq<ArenaBlock>, head: Option<nat>, count: nat, list: seq<nat>, b: nat, r: ArenaBlock)
    requires Stacked(blocks, head, count, list) && b < |blocks| && b !in list && r.next == head
    ensures Stacked(blocks[b := r], Some(b), count + 1, [b] + list)
  {
    StackedFrame(blocks, head, count, list, b, r);
    FieldUpdate(blocks, b, r);
    var next', grown := Nexts(blocks[b := r]), [b] + list;
    forall i | 0 <= i < |grown| ensures next'[grown[i]] == PoolSteps.LinkAt(grown, i + 1) {
      if i > 0 { assert next'[list[i - 1]] == PoolSteps.LinkAt(list, i); }
    }
  }

  lemma StackedPop(blocks: seq<ArenaBlock>, head: Option<nat>, count: nat, list: seq<nat>)
    requires Stacked(blocks, head, count, list) && head.Some?
    ensures list != [] && list[0] == head.value && head.value < |blocks|
    ensures count > 0 && Stacked(blocks, blocks[head.value].next, count - 1, list[1..])
  {
    var next := Nexts(blocks);
    assert next[list[0]] == blocks[head.value].next;
    forall i | 0 <= i < |list[1..]| ensures next[list[1..][i]] == PoolSteps.LinkAt(list[1..], i + 1) {
      assert next[list[i + 1]] == PoolSteps.LinkAt(list, i + 2);
    }
  }

  // ----- The layout of `initPools`

  function FreshBlock(i: nat, n: nat, blockSize: nat): ArenaBlock {
    ArenaBlock(i * blockSize, blockSize, CLEAR, 0, if i + 1 < n then Some(i + 1) else None)
  }

  function FreshBlocks(n: nat, blockSize: nat): seq<ArenaBlock> {
    seq(n, (i: nat) => FreshBlock(i, n, blockSize))
  }

  lemma FreshStacked(n: nat, blockSize: nat)
    requires n > 0
    ensures Stacked(FreshBlocks(n, blockSize), Some(0), n, Range(n))
  {
  }

  lemma FreshFields(n: nat, blockSize: nat)
    ensures Bases(FreshBlocks(n, blockSize)) == seq(n, (i: nat) => i * blockSize)
    ensures AllFlags(FreshBlocks(n, blockSize)) == seq(n, _ => CLEAR)
    ensures RetiredGens(FreshBlocks(n, blockSize)) == seq(n, _ => 0)
  {
  }

  method LayOut(n: nat, blockSize: nat) returns (records: array<ArenaBlock>)
    ensures fresh(records) && records[..] == FreshBlocks(n, blockSize)
  {
    records := new ArenaBlock[n](_ => ArenaBlock(0, 0, CLEAR, 0, None));
    var i := 0;
    while i < n
      invariant 0 <= i <= n
      invariant forall j :: 0 <= j < i ==> records[j] == FreshBlock(j, n, blockSize)
    {
      records[i] := FreshBlock(i, n, blockSize);
      i := i + 1;
    }
  }

  class ArenaPools {
    const backing: nat
    const blockSize: nat
    const blocks: array<ArenaBlock>
    const memory: array<Byte>
    var commonHead: Option<nat>
    var commonCount: nat
    var quarantineHead: Option<nat>
    var quarantineCount: nat
    var l2Head: Option<nat>
    var l2Count: nat
    var generation: nat
    var sanitized: nat
    /** The arenas clients hold, by handle. */
    var arenas: map<nat, Arena>

    ghost var common: seq<nat>
    ghost var quarantine: seq<nat>
    ghost var l2: seq<nat>

    ghost predicate Linked()
      reads this, blocks
    {
      && Stacked(blocks[..], commonHead, commonCount, common)
      && Stacked(blocks[..], quarantineHead, quarantineCount, quarantine)
      && Stacked(blocks[..], l2Head, l2Count, l2)
      && (forall i :: 0 <= i < blocks.Length ==> blocks[i].capacity == blockSize)
    }

    ghost function View(): Pools
      reads this, blocks, memory
    {
      Pools(backing, blockSize, Bases(blocks[..]), common, quarantine, l2,
            AllFlags(blocks[..]), RetiredGens(blocks[..]), memory[..], generation, sanitized, arenas)
    }

    ghost predicate Valid()
      reads this, blocks, memory
    {
      Linked() && Inv(View())
    }

    /** `initPools`. */
    constructor (backing: nat, n: nat, blockSize: nat)
      requires n > 0 && blockSize > 0
      ensures Valid()
      ensures exists zeros :: |zeros| == n * blockSize && (forall p :: 0 <= p < |zeros| ==> zeros[p] == 0)
                              && View() == InitPools(backing, n, blockSize, zeros)
    {
      this.backing := backing;
      this.blockSize := blockSize;
      var records := LayOut(n, blockSize);
      blocks := records;
      memory := new Byte[n * blockSize](_ => 0);
      commonHead, commonCount := Some(0), n;
      quarantineHead, quarantineCount := None, 0;
      l2Head, l2Count := None, 0;
      generation, sanitized, arenas := 1, 0, map[];
      common, quarantine, l2 := Range(n), [], [];
      new;
      FreshStacked(n, blockSize);
      FreshFields(n, blockSize);
      assert View() == InitPools(backing, n, blockSize, memory[..]);
    }

    // ----- The three stacks

    /** Overwrites one record without disturbing a stack. */
    method Store(b: nat, r: ArenaBlock)
      requires Linked() && b < blocks.Length && r.capacity == blockSize
      requires r.next == blocks[b].next || (b !in common && b !in quarantine && b !in l2)
      modifies blocks
      ensures Linked() && blocks[..] == old(blocks[..])[b := r]
    {
      StackedFrame(blocks[..], commonHead, commonCount, common, b, r);
      StackedFrame(blocks[..], quarantineHead, quarantineCount, quarantine, b, r);
      StackedFrame(blocks[..], l2Head, l2Count, l2, b, r);
      blocks[b] := r;
      assert blocks[..] == old(blocks[..])[b := r];
    }

    /** A write to the flags of one block record. */
    method SetFlags(b: nat, flags: Flags)
      requires Linked() && b < blocks.Length
      modifies blocks
      ensures Linked() && View() == old(View()).(flags := old(View()).flags[b := flags])
      ensures blocks[b].base == old(blocks[b].base)
    {
      FlagsUpdate(blocks[..], b, flags, blocks[b].next);
      Store(b, blocks[b].(flags := flags));
    }

    method PopCommon() returns (r: Option<nat>)
      requires Linked()
      modifies this`common, this`commonHead, this`commonCount, blocks
      ensures Linked()
      ensures old(common) == [] ==> r == None && View() == old(View())
      ensures old(common) != [] ==>
                && r == Some(old(common)[0]) && r.value < blocks.Length
                && View() == old(View()).(common := old(common)[1..], flags := old(View()).flags[r.value := CLEAR])
    {
      if commonHead.None? { return None; }
      StackedPop(blocks[..], commonHead, commonCount, common);
      var b := commonHead.value;
      commonHead := blocks[b].next;
      commonCount := commonCount - 1;
      common := common[1..];
      SetFlags(b, CLEAR);
      return Some(b);
    }

    method PushCommon(b: nat)
      requires Linked() && b < blocks.Length && b !in common && b !in quarantine && b !in l2
      modifies this`common, this`commonHead, this`commonCount, blocks
      ensures Linked() && View() == old(View()).(common := [b] + old(common))
    {
      var r := blocks[b].(next := commonHead);
      StackedPush(blocks[..], commonHead, commonCount, common, b, r);
      FlagsUpdate(blocks[..], b, blocks[b].flags, commonHead);
      assert AllFlags(blocks[..])[b := blocks[b].flags] == AllFlags(blocks[..]);
      Store(b, r);
      commonHead := Some(b);
      commonCount := commonCount + 1;
      common := [b] + common;
    }

    method PushQuarantine(b: nat, retiredGen: nat)
      requires Linked() && b < blocks.Length && b !in common && b !in quarantine && b !in l2
      modifies this`quarantine, this`quarantineHead, this`quarantineCount, blocks
      ensures Linked()
      ensures var v := old(View());
              View() == v.(quarantine := [b] + old(quarantine), flags := v.flags[b := v.flags[b].(quarantined := true)],
                           retired := v.retired[b := retiredGen])
    {
      var flags := blocks[b].flags.(quarantined := true);
      var r := blocks[b].(flags := flags, retiredGen := retiredGen, next := quarantineHead);
      StackedPush(blocks[..], quarantineHead, quarantineCount, quarantine, b, r);
      FieldUpdate(blocks[..], b, r);
      assert Bases(blocks[..])[b := blocks[b].base] == Bases(blocks[..]);
      Store(b, r);
      quarantineHead := Some(b);
      quarantineCount := quarantineCount + 1;
      quarantine := [b] + quarantine;
    }

    /** Looks at the top of the quarantine only. */
    method PopSafe(gen: nat) returns (r: Option<nat>)
      requires Linked()
      modifies this`quarantine, this`quarantineHead, this`quarantineCount
      ensures Linked()
      ensures r.Some? <==> CanPopSafe(old(View()), gen)
      ensures r.None? ==> View() == old(View())
      ensures r.Some? ==> r.value == old(quarantine)[0] && r.value < blocks.Length
                          && View() == old(View()).(quarantine := old(quarantine)[1..])
    {
      if quarantineHead.None? { return None; }
      StackedPop(blocks[..], quarantineHead, quarantineCount, quarantine);
      var b := quarantineHead.value;
      assert RetiredGens(blocks[..])[b] == blocks[b].retiredGen;
      if blocks[b].retiredGen + 1 >= gen { return None; }
      quarantineHead := blocks[b].next;
      quarantineCount := quarantineCount - 1;
      quarantine := quarantine[1..];
      return Some(b);
    }

    method PopL2() returns (r: Option<nat>)
      requires Linked()
      modifies this`l2, this`l2Head, this`l2Count, blocks
      ensures Linked()
      ensures old(l2) == [] ==> r == None && View() == old(View())
      ensures old(l2) != [] ==>
                && r == Some(old(l2)[0]) && r.value < blocks.Length
                && View() == old(View()).(l2 := old(l2)[1..], flags := old(View()).flags[r.value := ZEROED])
    {
      if l2Head.None? { return None; }
      StackedPop(blocks[..], l2Head, l2Count, l2);
      var b := l2Head.value;
      l2Head := blocks[b].next;
      l2Count := l2Count - 1;
      l2 := l2[1..];
      SetFlags(b, ZEROED);
      return Some(b);
    }

    method PushL2(b: nat)
      requires Linked() && b < blocks.Length && b !in common && b !in quarantine && b !in l2
      modifies this`l2, this`l2Head, this`l2Count, blocks
      ensures Linked()
      ensures View() == old(View()).(l2 := [b] + old(l2), flags := old(View()).flags[b := ZEROED])
    {
      var r := blocks[b].(flags := ZEROED, next := l2Head);
      StackedPush(blocks[..], l2Head, l2Count, l2, b, r);
      FlagsUpdate(blocks[..], b, ZEROED, l2Head);
      Store(b, r);
      l2Head := Some(b);
      l2Count := l2Count + 1;
      l2 := [b] + l2;
    }

    /** The memory clearing of `avx2ZeroBlock`. */
    method ClearMemory(b: nat)
      requires Linked() && b < blocks.Length && blocks[b].base + blockSize <= memory.Length
      modifies memory
      ensures View() == old(View()).(memory := ZeroBlock(old(View()), b))
    {
      var start, len := blocks[b].base, blocks[b].capacity;
      var i := 0;
      while i < len
        invariant 0 <= i <= len
        invariant forall p :: 0 <= p < memory.Length ==>
                    memory[p] == if start <= p < start + i then 0 else old(memory[..])[p]
      {
        memory[start + i] := 0;
        i := i + 1;
      }
      assert memory[..] == Zeroed(old(memory[..]), start, len);
    }

    // ----- Arenas

    /** The pool choice of `Arena.init`; the block taken belongs to the caller. */
    method TakeBlock(tier: Tier, ghost h: nat) returns (r: Option<nat>)
      requires Linked() && Wf(View())
      modifies this`common, this`commonHead, this`commonCount, this`l2, this`l2Head, this`l2Count,
               this`quarantine, this`quarantineHead, this`quarantineCount, blocks
      ensures Linked()
      ensures var p := PickPool(old(View()), tier);
              && (r.Some? <==> p.Some?)
              && (p.None? ==> View() == old(View()))
              && (p.Some? ==> r.value == ListOf(old(View()), p.value)[0]
                              && View() == Open(old(View()), h, tier, p.value).(arenas := old(arenas)))
    {
      if tier == Trusted {
        r := PopCommon();
        return;
      }
      r := PopL2();
      if r.Some? { return; }
      r := PopCommon();
      if r.Some? {
        SetFlags(r.value, CLEAR.(dirty := true));
        return;
      }
      r := PopSafe(generation);
      if r.Some? { SetFlags(r.value, ZEROED); }
    }

    /** `Arena.init`; fails with `PoolExhausted` when no pool can give a block. */
    method InitArena(h: nat, tier: Tier) returns (ok: bool)
      requires Valid() && h !in arenas
      modifies this, blocks
      ensures Valid() && View() == Apply(old(View()), Op.InitArena(h, tier))
      ensures ok <==> h in arenas
    {
      ApplyInv(View(), Op.InitArena(h, tier));
      var r := TakeBlock(tier, h);
      ok := r.Some?;
      if ok {
        arenas := arenas[h := Arena(tier, r.value, generation, 0, [])];
      }
    }

    /** The outcome of `Arena.alloc`, decided before anything changes. */
    method TryAlloc(a: Arena, elemSize: nat, align: nat, count: nat) returns (r: AllocOutcome)
      requires Linked() && a.block < blocks.Length && align > 0
      ensures r == AllocResult(View(), a, elemSize, align, count)
    {
      var block := blocks[a.block];
      assert View().base[a.block] == block.base;
      var size := elemSize * count;
      if size + align - 1 > MAX_USIZE { return Trapped; }
      var aligned := AlignForward(size, align);
      if a.offset + aligned > MAX_USIZE { return Trapped; }
      if a.offset + aligned > block.capacity { return OutOfMemory; }
      if (backing + block.base + a.offset) % align != 0 { return Trapped; }
      return Allocated(Extent(block.base + a.offset, aligned));
    }

    /** `Arena.alloc` for `count` elements; a trapped call stops the program and changes nothing. */
    method Alloc(h: nat, elemSize: nat, align: nat, count: nat) returns (r: AllocOutcome)
      requires Valid() && h in arenas && align > 0 && elemSize % align == 0
      modifies this`arenas, blocks
      ensures Valid() && View() == Apply(old(View()), Op.Alloc(h, elemSize, align, count))
      ensures r == AllocResult(old(View()), old(arenas)[h], elemSize, align, count)
    {
      ApplyInv(View(), Op.Alloc(h, elemSize, align, count));
      var a := arenas[h];
      r := TryAlloc(a, elemSize, align, count);
      if r.Allocated? { Record(h, r.extent); }
    }

    method Record(h: nat, extent: Extent)
      requires Linked() && h in arenas && arenas[h].block < blocks.Length
      modifies this`arenas, blocks
      ensures Linked() && View() == Bump(old(View()), h, extent)
    {
      var a := arenas[h];
      arenas := arenas[h := a.(offset := a.offset + extent.len, allocs := a.allocs + [extent])];
      if a.tier == Untrusted {
        SetFlags(a.block, blocks[a.block].flags.(dirty := true));
      }
    }

    /** A client stores a byte through a slice it was given. */
    method Write(h: nat, pos: nat, value: Byte)
      requires Valid() && Enabled(View(), Op.Write(h, pos, value))
      modifies memory
      ensures Valid() && View() == Apply(old(View()), Op.Write(h, pos, value))
    {
      ApplyInv(View(), Op.Write(h, pos, value));
      WriteInBounds(View(), h, pos, value);
      memory[pos] := value;
      assert memory[..] == old(memory[..])[pos := value];
    }

    method Deinit(h: nat)
      requires Valid() && h in arenas
      modifies this, blocks
      ensures Valid() && View() == Apply(old(View()), Op.Deinit(h))
    {
      ApplyInv(View(), Op.Deinit(h));
      ArenaUnlisted(View(), h);
      var a := arenas[h];
      arenas := arenas - {h};
      if a.tier == Trusted {
        PushCommon(a.block);
      } else {
        PushQuarantine(a.block, generation);
      }
    }

    /** Marks an unlisted block zeroed and files it as it is. */
    method FileDirty(b: nat)
      requires Linked() && b < blocks.Length && b !in common && b !in quarantine && b !in l2
      modifies this`l2, this`l2Head, this`l2Count, blocks
      ensures Linked()
      ensures View() == old(View()).(l2 := [b] + old(l2), flags := old(View()).flags[b := ZEROED])
    {
      ghost var flags, marked := View().flags, blocks[b].flags.(zeroed := true);
      SetFlags(b, blocks[b].flags.(zeroed := true));
      PushL2(b);
      assert flags[b := marked][b := ZEROED] == flags[b := ZEROED];
    }

    method DeinitAndZero(h: nat)
      requires Valid() && h in arenas
      modifies this, blocks, memory
      ensures Valid() && View() == Apply(old(View()), Op.DeinitAndZero(h))
    {
      ApplyInv(View(), Op.DeinitAndZero(h));
      ArenaUnlisted(View(), h);
      var a := arenas[h];
      arenas := arenas - {h};
      if a.tier == Trusted {
        assert View().base[a.block] == blocks[a.block].base;
        ClearMemory(a.block);
        PushCommon(a.block);
      } else {
        FileDirty(a.block);
      }
    }

    method IncrementGeneration()
      requires Valid()
      modifies this`generation
      ensures Valid() && View() == Apply(old(View()), Op.IncrementGeneration)
    {
      ApplyInv(View(), Op.IncrementGeneration);
      generation := generation + 1;
    }

    /** Clears an unlisted block and files it for untrusted reuse. */
    method ClearAndFile(b: nat)
      requires Linked() && b < blocks.Length && blocks[b].base + blockSize <= memory.Length
      requires b !in common && b !in quarantine && b !in l2
      modifies this`l2, this`l2Head, this`l2Count, blocks, memory
      ensures Linked()
      ensures var v := old(View());
              View() == v.(memory := ZeroBlock(v, b), flags := v.flags[b := ZEROED], l2 := [b] + old(l2))
    {
      ghost var flags := View().flags;
      ClearMemory(b);
      SetFlags(b, ZEROED);
      PushL2(b);
      assert flags[b := ZEROED][b := ZEROED] == flags[b := ZEROED];
    }

    method SanitizeTop(gen: nat) returns (ok: bool)
      requires Linked() && (quarantine != [] ==> TopIsLoose(View()))
      modifies this, blocks, memory
      ensures Linked() && (ok <==> CanPopSafe(old(View()), gen))
      ensures var v := old(View());
              View() == if !ok then v
                        else v.(quarantine := v.quarantine[1..], l2 := [v.quarantine[0]] + v.l2,
                                flags := v.flags[v.quarantine[0] := ZEROED],
                                memory := ZeroBlock(v, v.quarantine[0]), sanitized := v.sanitized + 1)
    {
      var r := PopSafe(gen);
      if r.None? { return false; }
      assert View().base[r.value] == blocks[r.value].base;
      ClearAndFile(r.value);
      sanitized := sanitized + 1;
      return true;
    }

    method SanitizeOne(gen: nat) returns (ok: bool)
      requires Valid()
      modifies this, blocks, memory
      ensures Valid() && View() == Apply(old(View()), Op.SanitizeOne(gen))
      ensures ok <==> CanPopSafe(old(View()), gen)
    {
      ApplyInv(View(), Op.SanitizeOne(gen));
      if quarantine != [] { TopUnlisted(View()); }
      ok := SanitizeTop(gen);
    }

    /** One more call at the same generation, after `k` of them since `before`. */
    method SanitizeNext(gen: nat, ghost before: Pools, ghost k: nat) returns (ok: bool)
      requires Valid() && Inv(before) && Progress(before, gen, k, View())
      modifies this, blocks, memory
      ensures Valid() && Progress(before, gen, if ok then k + 1 else k, View())
      ensures ok <==> CanSanitize(before, gen, k + 1)
    {
      NextSanitized(before, gen, k, View());
      ok := SanitizeOne(gen);
    }

    /** Calls at one generation until the batch is full or one of them finds nothing. */
    method SanitizeUpTo(gen: nat, batchSize: nat, ghost before: Pools) returns (processed: nat)
      requires Valid() && View() == before
      modifies this, blocks, memory
      ensures Valid() && Wf(before) && Progress(before, gen, processed, View()) && processed <= batchSize
      ensures processed < batchSize ==> !CanSanitize(before, gen, processed + 1)
    {
      processed := 0;
      while processed < batchSize
        invariant processed <= batchSize && Valid() && Progress(before, gen, processed, View())
      {
        var ok := SanitizeNext(gen, before, processed);
        if !ok { return; }
        processed := processed + 1;
      }
    }

    /** One round of the sanitizer thread: up to `batchSize` blocks at the current generation. */
    method SanitizeBatch(batchSize: nat) returns (processed: nat)
      requires Valid()
      modifies this, blocks, memory
      ensures Valid() && View() == Sanitized(old(View()), old(generation), processed)
      ensures processed == if !CanPopSafe(old(View()), old(generation)) then 0
                           else if batchSize <= |old(quarantine)| then batchSize else |old(quarantine)|
    {
      processed := SanitizeUpTo(generation, batchSize, View());
    }

    /** The reported counts are the lengths of the lists. */
    method GetStats() returns (stats: PoolStats)
      requires Valid()
      ensures stats == PoolStats(|View().common|, |View().quarantine|, |View().l2|, View().sanitized)
    {
      stats := PoolStats(commonCount, quarantineCount, l2Count, sanitized);
    }
  }

  /** Whether `k` calls in a row at the generation find something to sanitize. */
  predicate CanSanitize(s: Pools, gen: nat, k: nat) {
    k == 0 || (CanPopSafe(s, gen) && k <= |s.quarantine|)
  }

  /** `k` calls in a row found something and led to `t`. */
  predicate Progress(s: Pools, gen: nat, k: nat, t: Pools)
    requires Wf(s)
  {
    CanSanitize(s, gen, k) && t == Sanitized(s, gen, k)
  }

  /** One more call. */
  lemma NextSanitized(s: Pools, gen: nat, k: nat, t: Pools)
    requires Inv(s) && Wf(t) && Progress(s, gen, k, t)
    ensures CanPopSafe(t, gen) <==> CanSanitize(s, gen, k + 1)
    ensures Progress(s, gen, if CanPopSafe(t, gen) then k + 1 else k, Apply(t, Op.SanitizeOne(gen)))
  {
    if CanPopSafe(s, gen) { DrainPrefix(s, gen, k); }
  }

  lemma ArenaUnlisted(s: Pools, h: nat)
    requires Inv(s) && h in s.arenas
    ensures var b := s.arenas[h].block; b !in s.common && b !in s.quarantine && b !in s.l2
  {
    assert InArena(s.arenas, s.arenas[h].block);
    ListedOnce(s, s.arenas[h].block);
  }

  /** The top of the quarantine is nowhere else, not even further down, and has its memory. */
  ghost predicate TopIsLoose(s: Pools)
    requires s.quarantine != []
  {
    var b := s.quarantine[0];
    && b !in s.common && b !in s.quarantine[1..] && b !in s.l2
    && b < |s.base| && s.base[b] + s.blockSize <= |s.memory|
  }

  lemma TopUnlisted(s: Pools)
    requires Inv(s) && s.quarantine != []
    ensures TopIsLoose(s)
  {
    var b := s.quarantine[0];
    ListedOnce(s, b);
    assert Homes(s, b) == 1;
    PopCount(s.quarantine, b);
    assert multiset(s.quarantine[1..])[b] == 0;
  }
}
