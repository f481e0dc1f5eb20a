/**
  The lock-free intrusive stack behind `CommonPool` and `L2Pool`, one shared-memory
  access at a time.

  A state holds the shared words (`head`, every `pool_next`, `count`) and one program
  counter per thread.  An action is either the start of a call or one load, store,
  compare-and-swap or counter update of a running call.  A run is any list of actions,
  so every interleaving is covered.

  `Next` allows any number of concurrent pushers and poppers, and the quarantine's pop, which ends
  in a plain store instead of a compare-and-swap.  `Sound` says exactly which accesses keep the
  pool intact; with one popper at a time (`Disciplined`) every swap is sound, and a plain store is
  sound exactly when its block is still on top.
*/
module PoolSteps {
  import opened Outcomes
  import opened Sequences

  type Block = nat
  type Link = Option<Block>

  datatype Pc =
    | Idle
    | PushLoad(block: Block)              // before the load of head
    | PushStore(block: Block, seen: Link) // before the store to block.pool_next
    | PushCas(block: Block, seen: Link)   // before the compare-and-swap on head
    | PushCount(block: Block)             // swapped, counter not yet incremented
    | PopLoad                             // before the load of head
    | PopNext(top: Block)                 // before the load of top.pool_next
    | PopCas(top: Block, after: Link)     // before the compare-and-swap on head
    | PopCount(top: Block)                // unlinked, counter not yet decremented
    | SafeLoad                            // quarantine pop: before the load of head
    | SafeNext(top: Block)                // before the load of top.pool_next
    | SafeStore(top: Block, after: Link)  // before the plain store to head

  /** `held` are the blocks owned by clients: neither on the list nor inside a call. */
  datatype State = State(head: Link, next: seq<Link>, count: int, held: set<Block>, pcs: seq<Pc>)

  datatype Action =
    | StartPush(tid: nat, block: Block)
    | StartPop(tid: nat)
    | StartPopSafe(tid: nat)
    | Advance(tid: nat)
    | Decline(tid: nat) // the quarantine's top block is too young

  /** What a call does at the instant it takes effect. */
  datatype Event = Pushed(block: Block) | Popped(block: Block) | FoundEmpty | Declined

  // ----- The machine

  predicate Enabled(s: State, a: Action) {
    && a.tid < |s.pcs|
    && match a
       case StartPush(tid, b) => s.pcs[tid].Idle? && b in s.held
       case StartPop(tid) => s.pcs[tid].Idle?
       case StartPopSafe(tid) => s.pcs[tid].Idle?
       case Advance(tid) =>
         && !s.pcs[tid].Idle?
         && (s.pcs[tid].PushStore? ==> s.pcs[tid].block < |s.next|)
         && (s.pcs[tid].PopNext? || s.pcs[tid].SafeNext? ==> s.pcs[tid].top < |s.next|)
       case Decline(tid) => s.pcs[tid].SafeNext?
  }

  function Next(s: State, a: Action): State
    requires Enabled(s, a)
  {
    match a
    case StartPush(tid, b) => s.(held := s.held - {b}, pcs := s.pcs[tid := PushLoad(b)])
    case StartPop(tid) => s.(pcs := s.pcs[tid := PopLoad])
    case StartPopSafe(tid) => s.(pcs := s.pcs[tid := SafeLoad])
    case Decline(tid) => s.(pcs := s.pcs[tid := Idle])
    case Advance(tid) =>
      match s.pcs[tid]
      case PushLoad(b) => s.(pcs := s.pcs[tid := PushStore(b, s.head)])
      case PushStore(b, seen) => s.(next := s.next[b := seen], pcs := s.pcs[tid := PushCas(b, seen)])
      case PushCas(b, seen) =>
        if s.head == seen then s.(head := Some(b), pcs := s.pcs[tid := PushCount(b)])
        else s.(pcs := s.pcs[tid := PushLoad(b)])
      case PushCount(b) => s.(count := s.count + 1, pcs := s.pcs[tid := Idle])
      case PopLoad =>
        if s.head.None? then s.(pcs := s.pcs[tid := Idle])
        else s.(pcs := s.pcs[tid := PopNext(s.head.value)])
      case PopNext(top) => s.(pcs := s.pcs[tid := PopCas(top, s.next[top])])
      case PopCas(top, after) =>
        if s.head == Some(top) then s.(head := after, pcs := s.pcs[tid := PopCount(top)])
        else s.(pcs := s.pcs[tid := PopLoad])
      case PopCount(top) =>
        s.(count := s.count - 1, held := s.held + {top}, pcs := s.pcs[tid := Idle])
      case SafeLoad =>
        if s.head.None? then s.(pcs := s.pcs[tid := Idle])
        else s.(pcs := s.pcs[tid := SafeNext(s.head.value)])
      case SafeNext(top) => s.(pcs := s.pcs[tid := SafeStore(top, s.next[top])])
      case SafeStore(top, after) => s.(head := after, pcs := s.pcs[tid := PopCount(top)])
  }

  /** The event of a step: a successful swap or a plain store, the load that finds the list empty, or a refusal. */
  function EventOf(s: State, a: Action): Option<Event>
    requires Enabled(s, a)
  {
    if a.Decline? then Some(Declined)
    else if !a.Advance? then None
    else match s.pcs[a.tid]
      case PushCas(b, seen) => if s.head == seen then Some(Pushed(b)) else None
      case PopCas(top, _) => if s.head == Some(top) then Some(Popped(top)) else None
      case PopLoad => if s.head.None? then Some(FoundEmpty) else None
      case SafeLoad => if s.head.None? then Some(FoundEmpty) else None
      case SafeStore(top, _) => Some(Popped(top))
      case _ => None
  }

  /** Between the first load of a pop and its swap or store. */
  predicate Popping(pc: Pc) {
    pc.PopLoad? || pc.PopNext? || pc.PopCas? || pc.SafeLoad? || pc.SafeNext? || pc.SafeStore?
  }

  /** A pop may start only while no other thread is popping. */
  predicate Disciplined(s: State, a: Action) {
    a.StartPop? || a.StartPopSafe? ==> forall i :: 0 <= i < |s.pcs| ==> !Popping(s.pcs[i])
  }

  /** A plain store finds its block still on top. */
  predicate Timely(s: State, a: Action)
    requires Enabled(s, a)
  {
    a.Advance? && s.pcs[a.tid].SafeStore? ==> s.head == Some(s.pcs[a.tid].top)
  }

  /** A pop that takes effect finds its block on top with the link it read: a plain store may find neither. */
  predicate Sound(s: State, a: Action)
    requires Enabled(s, a)
  {
    a.Advance? ==>
      match s.pcs[a.tid]
      case PopCas(top, after) => s.head == Some(top) ==> top < |s.next| && s.next[top] == after
      case SafeStore(top, after) => s.head == Some(top) && top < |s.next| && s.next[top] == after
      case _ => true
  }

  predicate IsRun(s: State, run: seq<Action>)
    decreases |run|
  {
    run == [] || (Enabled(s, run[0]) && IsRun(Next(s, run[0]), run[1..]))
  }

  predicate DisciplinedRun(s: State, run: seq<Action>)
    requires IsRun(s, run)
    decreases |run|
  {
    run == [] || (Disciplined(s, run[0]) && DisciplinedRun(Next(s, run[0]), run[1..]))
  }

  predicate TimelyRun(s: State, run: seq<Action>)
    requires IsRun(s, run)
    decreases |run|
  {
    run == [] || (Timely(s, run[0]) && TimelyRun(Next(s, run[0]), run[1..]))
  }

  predicate SoundRun(s: State, run: seq<Action>)
    requires IsRun(s, run)
    decreases |run|
  {
    run == [] || (Sound(s, run[0]) && SoundRun(Next(s, run[0]), run[1..]))
  }

  function After(s: State, run: seq<Action>): (t: State)
    requires IsRun(s, run)
    ensures |t.pcs| == |s.pcs|
    decreases |run|
  {
    if run == [] then s else After(Next(s, run[0]), run[1..])
  }

  function EventsOf(s: State, run: seq<Action>): seq<Event>
    requires IsRun(s, run)
    decreases |run|
  {
    if run == [] then []
    else
      var rest := EventsOf(Next(s, run[0]), run[1..]);
      var e := EventOf(s, run[0]);
      if e.Some? then [e.value] + rest else rest
  }

  // ----- The atomic stack

  /** Replays events on a sequential stack; fails at the first event the stack would not allow. */
  function Replay(stack: seq<Block>, events: seq<Event>): Option<seq<Block>>
    decreases |events|
  {
    if events == [] then Some(stack)
    else match events[0]
      case Pushed(b) => if b in stack then None else Replay([b] + stack, events[1..])
      case Popped(b) => if stack != [] && stack[0] == b then Replay(stack[1..], events[1..]) else None
      case FoundEmpty => if stack == [] then Replay(stack, events[1..]) else None
      case Declined => Replay(stack, events[1..])
  }

  // ----- The invariant

  /** The block a call keeps to itself: being pushed and not yet linked, or just unlinked. */
  function KeptBlock(pc: Pc): Option<Block> {
    match pc
    case PushLoad(b) => Some(b)
    case PushStore(b, _) => Some(b)
    case PushCas(b, _) => Some(b)
    case PopCount(b) => Some(b)
    case _ => None
  }

  ghost predicate InACall(pcs: seq<Pc>, b: Block) {
    exists i :: 0 <= i < |pcs| && KeptBlock(pcs[i]) == Some(b)
  }

  function LinkAt(list: seq<Block>, i: nat): Link {
    if i < |list| then Some(list[i]) else None
  }

  /** Following `pool_next` from `head` spells out exactly `list`. */
  predicate Chain(head: Link, next: seq<Link>, list: seq<Block>) {
    && head == LinkAt(list, 0)
    && (forall i :: 0 <= i < |list| ==> list[i] < |next|)
    && (forall i {:trigger next[list[i]]} :: 0 <= i < |list| ==> next[list[i]] == LinkAt(list, i + 1))
  }

  /** The list repeats no block and holds none that a client holds. */
  predicate ListOk(list: seq<Block>, held: set<Block>) {
    && (forall i, j :: 0 <= i < j < |list| ==> list[i] != list[j])
    && (forall i :: 0 <= i < |list| ==> list[i] !in held)
  }

  /** A call's own block is in nobody else's hands, and its local variables are still true. */
  predicate CallOk(pc: Pc, next: seq<Link>, held: set<Block>, list: seq<Block>) {
    && (KeptBlock(pc).Some? ==>
          KeptBlock(pc).value < |next| && KeptBlock(pc).value !in list && KeptBlock(pc).value !in held)
    && (pc.PushCas? ==> next[pc.block] == pc.seen)
    && (pc.PopNext? || pc.PopCas? || pc.SafeNext? || pc.SafeStore? ==> pc.top < |next|)
  }

  predicate CallsDisjoint(pcs: seq<Pc>) {
    forall i, j :: 0 <= i < j < |pcs| && KeptBlock(pcs[i]).Some? ==> KeptBlock(pcs[i]) != KeptBlock(pcs[j])
  }

  /** No block is lost: each is on the list, held by a client, or inside a call. */
  ghost predicate Covered(n: nat, list: seq<Block>, held: set<Block>, pcs: seq<Pc>) {
    && (forall b :: b in held ==> b < n)
    && (forall b: Block :: b < n ==> b in list || b in held || InACall(pcs, b))
  }

  /** What `count` still owes: a pop past its swap overstates it, a push past its swap understates it. */
  function Owed(pcs: seq<Pc>): int {
    if pcs == [] then 0
    else Owed(pcs[..|pcs| - 1]) + OwedBy(pcs[|pcs| - 1])
  }

  function OwedBy(pc: Pc): int {
    if pc.PopCount? then 1 else if pc.PushCount? then -1 else 0
  }

  ghost predicate Inv(s: State, list: seq<Block>) {
    && Chain(s.head, s.next, list)
    && ListOk(list, s.held)
    && (forall i :: 0 <= i < |s.pcs| ==> CallOk(s.pcs[i], s.next, s.held, list))
    && CallsDisjoint(s.pcs)
    && Covered(|s.next|, list, s.held, s.pcs)
    && s.count == |list| + Owed(s.pcs)
  }

  /** Some reading of the memory makes sense of it. */
  ghost predicate Intact(s: State) {
    exists list :: Inv(s, list)
  }

  // ----- One step

  lemma {:induction false} OwedUpdate(pcs: seq<Pc>, tid: nat, pc: Pc)
    requires tid < |pcs|
    ensures Owed(pcs[tid := pc]) == Owed(pcs) - OwedBy(pcs[tid]) + OwedBy(pc)
  {
    var last := |pcs| - 1;
    if tid == last {
      assert pcs[tid := pc][..last] == pcs[..last];
    } else {
      assert pcs[tid := pc][..last] == pcs[..last][tid := pc];
      OwedUpdate(pcs[..last], tid, pc);
    }
  }

  /** Blocks inside calls after thread `tid` moves to `pc`: only its own block can change hands. */
  lemma InACallUpdate(pcs: seq<Pc>, tid: nat, pc: Pc, b: Block)
    requires tid < |pcs| && InACall(pcs, b)
    requires KeptBlock(pcs[tid]) != Some(b) || KeptBlock(pc) == Some(b)
    ensures InACall(pcs[tid := pc], b)
  {
    var i :| 0 <= i < |pcs| && KeptBlock(pcs[i]) == Some(b);
    assert KeptBlock(pcs[tid := pc][i]) == Some(b);
  }

  lemma CoveredUpdate(n: nat, list: seq<Block>, held: set<Block>, pcs: seq<Pc>,
                      list': seq<Block>, held': set<Block>, tid: nat, pc: Pc)
    requires Covered(n, list, held, pcs) && tid < |pcs|
    requires forall b :: b in held' ==> b < n
    requires forall b :: b in list ==> b in list' || KeptBlock(pc) == Some(b)
    requires forall b :: b in held ==> b in held' || KeptBlock(pc) == Some(b)
    requires KeptBlock(pcs[tid]).Some? ==>
               || KeptBlock(pcs[tid]).value in list'
               || KeptBlock(pcs[tid]).value in held'
               || KeptBlock(pc) == KeptBlock(pcs[tid])
    ensures Covered(n, list', held', pcs[tid := pc])
  {
    forall b: Block | b < n && b !in list' && b !in held'
      ensures InACall(pcs[tid := pc], b)
    {
      if KeptBlock(pc) == Some(b) {
        assert KeptBlock(pcs[tid := pc][tid]) == Some(b);
      } else {
        InACallUpdate(pcs, tid, pc, b);
      }
    }
  }

  /** A step that only moves a thread's program counter: loads, failed swaps, a pop's start. */
  lemma LocalStep(s: State, list: seq<Block>, tid: nat, pc: Pc)
    requires Inv(s, list) && tid < |s.pcs|
    requires KeptBlock(pc) == KeptBlock(s.pcs[tid]) && OwedBy(pc) == OwedBy(s.pcs[tid])
    requires CallOk(pc, s.next, s.held, list)
    ensures Inv(s.(pcs := s.pcs[tid := pc]), list)
  {
    OwedUpdate(s.pcs, tid, pc);
    CoveredUpdate(|s.next|, list, s.held, s.pcs, list, s.held, tid, pc);
  }

  lemma StartPushStep(s: State, list: seq<Block>, tid: nat, b: Block)
    requires Inv(s, list) && Enabled(s, StartPush(tid, b))
    ensures Inv(Next(s, StartPush(tid, b)), list)
  {
    var pc := PushLoad(b);
    var t := Next(s, StartPush(tid, b));
    OwedUpdate(s.pcs, tid, pc);
    assert KeptBlock(s.pcs[tid]).None?;
    CoveredUpdate(|s.next|, list, s.held, s.pcs, list, t.held, tid, pc);
    forall i | 0 <= i < |s.pcs|
      ensures CallOk(t.pcs[i], t.next, t.held, list) && (i != tid ==> KeptBlock(t.pcs[i]) != Some(b))
    {
      assert CallOk(s.pcs[i], s.next, s.held, list);
    }
  }

  /** A linked block's `pool_next` is written by nobody: a push writes only its own block's. */
  lemma StoreStep(s: State, list: seq<Block>, tid: nat)
    requires Inv(s, list) && tid < |s.pcs| && s.pcs[tid].PushStore?
    ensures Enabled(s, Advance(tid)) && Inv(Next(s, Advance(tid)), list)
  {
    var b, seen := s.pcs[tid].block, s.pcs[tid].seen;
    assert CallOk(s.pcs[tid], s.next, s.held, list);
    var pc := PushCas(b, seen);
    var t := Next(s, Advance(tid));
    OwedUpdate(s.pcs, tid, pc);
    CoveredUpdate(|s.next|, list, s.held, s.pcs, list, s.held, tid, pc);
    forall i | 0 <= i < |s.pcs| ensures CallOk(t.pcs[i], t.next, t.held, list) {
      assert CallOk(s.pcs[i], s.next, s.held, list);
      assert i != tid ==> KeptBlock(s.pcs[i]) != KeptBlock(s.pcs[tid]);
    }
  }

  /** A push whose swap succeeds puts its block on top. */
  lemma PushSwap(s: State, list: seq<Block>, tid: nat)
    requires Inv(s, list) && tid < |s.pcs| && s.pcs[tid].PushCas? && s.head == s.pcs[tid].seen
    ensures s.pcs[tid].block !in list
    ensures Inv(Next(s, Advance(tid)), [s.pcs[tid].block] + list)
  {
    var b := s.pcs[tid].block;
    var pc := PushCount(b);
    var t := Next(s, Advance(tid));
    var grown := [b] + list;
    assert CallOk(s.pcs[tid], s.next, s.held, list);
    OwedUpdate(s.pcs, tid, pc);
    assert forall i :: 0 < i < |grown| ==> grown[i] == list[i - 1];
    CoveredUpdate(|s.next|, list, s.held, s.pcs, grown, s.held, tid, pc);
    forall i | 0 <= i < |s.pcs| ensures CallOk(t.pcs[i], t.next, t.held, grown) {
      assert CallOk(s.pcs[i], s.next, s.held, list);
      assert i != tid ==> KeptBlock(s.pcs[i]) != KeptBlock(s.pcs[tid]);
    }
  }

  lemma RestOfList(head: Link, next: seq<Link>, held: set<Block>, list: seq<Block>)
    requires Chain(head, next, list) && ListOk(list, held) && list != []
    ensures Chain(next[list[0]], next, list[1..]) && ListOk(list[1..], held) && list[0] !in list[1..]
  {
    var rest := list[1..];
    assert forall i :: 0 <= i < |rest| ==> rest[i] == list[i + 1];
    forall i | 0 <= i < |rest| ensures next[rest[i]] == LinkAt(rest, i + 1) {
      assert next[list[i + 1]] == LinkAt(list, i + 2);
    }
  }

  /** A swap or store that finds its block on top with the link it read unlinks that block and nothing else. */
  lemma PopSwap(s: State, list: seq<Block>, tid: nat)
    requires Inv(s, list) && tid < |s.pcs| && (s.pcs[tid].PopCas? || s.pcs[tid].SafeStore?)
    requires s.head == Some(s.pcs[tid].top) && Sound(s, Advance(tid))
    ensures list != [] && list[0] == s.pcs[tid].top
    ensures Inv(Next(s, Advance(tid)), list[1..])
  {
    var top := s.pcs[tid].top;
    var pc := PopCount(top);
    var t := Next(s, Advance(tid));
    var rest := list[1..];
    assert CallOk(s.pcs[tid], s.next, s.held, list);
    OwedUpdate(s.pcs, tid, pc);
    assert list == [top] + rest;
    RestOfList(s.head, s.next, s.held, list);
    CoveredUpdate(|s.next|, list, s.held, s.pcs, rest, s.held, tid, pc);
    forall i | 0 <= i < |s.pcs|
      ensures CallOk(t.pcs[i], t.next, t.held, rest) && (i != tid ==> KeptBlock(t.pcs[i]) != Some(top))
    {
      assert CallOk(s.pcs[i], s.next, s.held, list);
    }
  }

  /** A finished pop hands its block to the client. */
  lemma PopReturns(s: State, list: seq<Block>, tid: nat)
    requires Inv(s, list) && tid < |s.pcs| && s.pcs[tid].PopCount?
    ensures Inv(Next(s, Advance(tid)), list)
  {
    var t := Next(s, Advance(tid));
    assert CallOk(s.pcs[tid], s.next, s.held, list);
    OwedUpdate(s.pcs, tid, Idle);
    CoveredUpdate(|s.next|, list, s.held, s.pcs, list, t.held, tid, Idle);
    forall i | 0 <= i < |s.pcs| ensures CallOk(t.pcs[i], t.next, t.held, list) {
      assert CallOk(s.pcs[i], s.next, s.held, list);
      assert i != tid ==> KeptBlock(s.pcs[i]) != KeptBlock(s.pcs[tid]);
    }
  }

  lemma PushReturns(s: State, list: seq<Block>, tid: nat)
    requires Inv(s, list) && tid < |s.pcs| && s.pcs[tid].PushCount?
    ensures Inv(Next(s, Advance(tid)), list)
  {
    OwedUpdate(s.pcs, tid, Idle);
    CoveredUpdate(|s.next|, list, s.held, s.pcs, list, s.held, tid, Idle);
  }

  /** The list after an event of the atomic stack; other steps leave it alone. */
  function ListAfter(list: seq<Block>, e: Option<Event>): seq<Block> {
    if e.None? then list
    else if e.value.Pushed? then [e.value.block] + list
    else if e.value.Popped? && list != [] then list[1..] else list
  }

  /** Every sound step keeps the invariant, and is either invisible or one legal atomic stack operation. */
  lemma StepRefines(s: State, list: seq<Block>, a: Action)
    requires Inv(s, list) && Enabled(s, a) && Sound(s, a)
    ensures Inv(Next(s, a), ListAfter(list, EventOf(s, a)))
    ensures match EventOf(s, a)
            case Some(Pushed(b)) => b !in list
            case Some(Popped(b)) => list != [] && list[0] == b
            case Some(FoundEmpty) => list == []
            case _ => true
  {
    var tid := a.tid;
    assert CallOk(s.pcs[tid], s.next, s.held, list);
    match a
    case StartPush(_, b) => StartPushStep(s, list, tid, b);
    case StartPop(_) => LocalStep(s, list, tid, PopLoad);
    case StartPopSafe(_) => LocalStep(s, list, tid, SafeLoad);
    case Decline(_) => LocalStep(s, list, tid, Idle);
    case Advance(_) =>
      match s.pcs[tid]
      case PushLoad(b) => LocalStep(s, list, tid, PushStore(b, s.head));
      case PushStore(_, _) => StoreStep(s, list, tid);
      case PushCas(b, seen) =>
        if s.head == seen { PushSwap(s, list, tid); } else { LocalStep(s, list, tid, PushLoad(b)); }
      case PushCount(_) => PushReturns(s, list, tid);
      case PopLoad =>
        if s.head.None? { LocalStep(s, list, tid, Idle); } else { LocalStep(s, list, tid, PopNext(s.head.value)); }
      case PopNext(top) => LocalStep(s, list, tid, PopCas(top, s.next[top]));
      case PopCas(top, _) =>
        if s.head == Some(top) { PopSwap(s, list, tid); } else { LocalStep(s, list, tid, PopLoad); }
      case PopCount(_) => PopReturns(s, list, tid);
      case SafeLoad =>
        if s.head.None? { LocalStep(s, list, tid, Idle); } else { LocalStep(s, list, tid, SafeNext(s.head.value)); }
      case SafeNext(top) => LocalStep(s, list, tid, SafeStore(top, s.next[top]));
      case SafeStore(_, _) => PopSwap(s, list, tid);
  }

  // ----- Whole runs

  /** The pool as `initPools` leaves it: all `n` blocks linked in order, `threads` idle threads. */
  function InitialPool(n: nat, threads: nat): State {
    State(if n > 0 then Some(0) else None,
          seq(n, (i: nat) => if i + 1 < n then Some(i + 1) else None),
          n, {}, seq(threads, _ => Idle))
  }

  lemma {:induction false} NothingOwed(pcs: seq<Pc>)
    requires forall i :: 0 <= i < |pcs| ==> pcs[i].Idle?
    ensures Owed(pcs) == 0
  {
    if pcs != [] { NothingOwed(pcs[..|pcs| - 1]); }
  }

  lemma InitialPoolInv(n: nat, threads: nat)
    ensures Inv(InitialPool(n, threads), Range(n)) && OnePopper(InitialPool(n, threads), Range(n))
  {
    var s := InitialPool(n, threads);
    NothingOwed(s.pcs);
    forall b: Block | b < n ensures b in Range(n) {
      assert Range(n)[b] == b;
    }
  }

  /**
    Linearizability: in every interleaving whose pops are sound, whatever their number and kind,
    the events of the run are a legal history of an atomic stack, and the memory spells out exactly
    that stack's contents.
  */
  lemma {:induction false} SoundRunRefinesStack(s: State, list: seq<Block>, run: seq<Action>)
    requires Inv(s, list) && IsRun(s, run) && SoundRun(s, run)
    ensures Replay(list, EventsOf(s, run)).Some?
    ensures Inv(After(s, run), Replay(list, EventsOf(s, run)).value)
    decreases |run|
  {
    if run != [] {
      var a := run[0];
      StepRefines(s, list, a);
      SoundRunRefinesStack(Next(s, a), ListAfter(list, EventOf(s, a)), run[1..]);
      var rest := EventsOf(Next(s, a), run[1..]);
      if EventOf(s, a).Some? {
        assert EventsOf(s, run)[1..] == rest;
      }
    }
  }

  /** The contents of a pool are determined by its memory: two readings of the links agree. */
  lemma {:induction false} ChainUnique(head: Link, next: seq<Link>, list: seq<Block>, list': seq<Block>)
    requires Chain(head, next, list) && Chain(head, next, list')
    ensures list == list'
  {
    ChainPrefix(head, next, list, list', |list|);
    if |list| > 0 {
      assert next[list[|list| - 1]] == None;
      assert list'[|list| - 1] == list[|list| - 1];
    }
  }

  lemma {:induction false} ChainPrefix(head: Link, next: seq<Link>, list: seq<Block>, list': seq<Block>, k: nat)
    requires Chain(head, next, list) && Chain(head, next, list') && k <= |list|
    ensures k <= |list'| && list[..k] == list'[..k]
  {
    if k > 0 {
      ChainPrefix(head, next, list, list', k - 1);
      if k > 1 {
        assert list[k - 2] == list[..k - 1][k - 2] == list'[k - 2];
        assert next[list[k - 2]] == LinkAt(list, k - 1);
      }
      assert LinkAt(list, k - 1) == LinkAt(list', k - 1);
      assert list[..k] == list[..k - 1] + [list[k - 1]];
      assert list'[..k] == list'[..k - 1] + [list'[k - 1]];
    }
  }

  // ----- Exactly when a pop is sound

  /** The tail of a chain is determined by where it starts. */
  lemma ChainTail(head: Link, next: seq<Link>, list: seq<Block>, list': seq<Block>, k: nat)
    requires Chain(head, next, list) && k < |list| && Chain(Some(list[k]), next, list')
    ensures list' == list[k..]
  {
    var tail := list[k..];
    assert forall i :: 0 <= i < |tail| ==> tail[i] == list[k + i];
    assert Chain(Some(list[k]), next, tail) by {
      forall i | 0 <= i < |tail| ensures next[tail[i]] == LinkAt(tail, i + 1) {
        assert next[list[k + i]] == LinkAt(list, k + i + 1);
      }
    }
    ChainUnique(Some(list[k]), next, list', tail);
  }

  /** If the pool makes sense after a pop wrote `head`, the list it left is the old one without its first block. */
  lemma PoppedList(s: State, list: seq<Block>, tid: nat, top: Block, after: Link, list': seq<Block>)
    requires Inv(s, list) && tid < |s.pcs| && KeptBlock(s.pcs[tid]).None? && OwedBy(s.pcs[tid]) == 0
    requires Inv(s.(head := after, pcs := s.pcs[tid := PopCount(top)]), list')
    ensures list != [] && list' == list[1..] && after == LinkAt(list, 1)
  {
    var t := s.(head := after, pcs := s.pcs[tid := PopCount(top)]);
    OwedUpdate(s.pcs, tid, PopCount(top));
    assert |list'| == |list| - 1;
    if list' != [] {
      forall i | 0 <= i < |s.pcs| && KeptBlock(s.pcs[i]).Some? ensures KeptBlock(s.pcs[i]).value !in list' {
        assert CallOk(t.pcs[i], t.next, t.held, list');
      }
      var b := list'[0];
      assert b in list' && b !in s.held && !InACall(s.pcs, b);
      var k :| 0 <= k < |list| && list[k] == b;
      ChainTail(s.head, s.next, list, list', k);
    }
  }

  /** And the block the pop takes was its top. */
  lemma PoppedTop(s: State, list: seq<Block>, tid: nat, top: Block, after: Link, list': seq<Block>)
    requires Inv(s, list) && tid < |s.pcs| && KeptBlock(s.pcs[tid]).None? && OwedBy(s.pcs[tid]) == 0
    requires Inv(s.(head := after, pcs := s.pcs[tid := PopCount(top)]), list')
    ensures list != [] && top == list[0]
  {
    var t := s.(head := after, pcs := s.pcs[tid := PopCount(top)]);
    PoppedList(s, list, tid, top, after, list');
    assert CallOk(t.pcs[tid], t.next, t.held, list');
    forall i | 0 <= i < |s.pcs| && KeptBlock(s.pcs[i]).Some? ensures KeptBlock(s.pcs[i]).value != top {
      assert i != tid && KeptBlock(t.pcs[i]) != KeptBlock(t.pcs[tid]);
    }
    assert top < |s.next| && top !in s.held && !InACall(s.pcs, top);
    forall k | 0 < k < |list| ensures list[k] != top {
      assert list[k] == list'[k - 1];
    }
  }

  /** A step keeps the pool intact if and only if it is sound, with any number of poppers of either kind. */
  lemma IntactIffSound(s: State, a: Action)
    requires Intact(s) && Enabled(s, a)
    ensures Intact(Next(s, a)) <==> Sound(s, a)
  {
    var list :| Inv(s, list);
    var pc := s.pcs[a.tid];
    if a.Advance? && ((pc.PopCas? && s.head == Some(pc.top)) || pc.SafeStore?) && Intact(Next(s, a)) {
      var list' :| Inv(Next(s, a), list');
      PoppedList(s, list, a.tid, pc.top, pc.after, list');
      PoppedTop(s, list, a.tid, pc.top, pc.after, list');
      assert s.next[list[0]] == LinkAt(list, 1);
    }
    if Sound(s, a) { StepRefines(s, list, a); }
  }

  /** The pool is intact before and after every step of the run. */
  ghost predicate IntactThroughout(s: State, run: seq<Action>)
    requires IsRun(s, run)
    decreases |run|
  {
    Intact(s) && (run == [] || IntactThroughout(Next(s, run[0]), run[1..]))
  }

  /** So a run keeps the pool intact if and only if all its pops are sound. */
  lemma {:induction false} RunIntactIffSound(s: State, run: seq<Action>)
    requires Intact(s) && IsRun(s, run)
    ensures IntactThroughout(s, run) <==> SoundRun(s, run)
    decreases |run|
  {
    if run != [] {
      IntactIffSound(s, run[0]);
      if Sound(s, run[0]) {
        RunIntactIffSound(Next(s, run[0]), run[1..]);
      } else if run[1..] != [] {
        assert !IntactThroughout(Next(s, run[0]), run[1..]);
      }
    }
  }

  // ----- One popper at a time

  /** What the popper read is still true of its block, which is still on the list. */
  predicate PopperOk(pc: Pc, next: seq<Link>, list: seq<Block>) {
    && (pc.PopNext? || pc.SafeNext? ==> pc.top in list)
    && (pc.PopCas? || pc.SafeStore? ==> pc.top in list && pc.top < |next| && next[pc.top] == pc.after)
  }

  predicate AtMostOnePopping(pcs: seq<Pc>) {
    forall i, j :: 0 <= i < j < |pcs| && Popping(pcs[i]) ==> !Popping(pcs[j])
  }

  predicate OnePopper(s: State, list: seq<Block>) {
    && AtMostOnePopping(s.pcs)
    && (forall i :: 0 <= i < |s.pcs| ==> PopperOk(s.pcs[i], s.next, list))
  }

  /** With one popper a swap is always sound, since nobody can have recycled its block. */
  lemma TimelyIsSound(s: State, list: seq<Block>, a: Action)
    requires Inv(s, list) && OnePopper(s, list) && Enabled(s, a)
    ensures Sound(s, a) <==> Timely(s, a)
  {
    assert PopperOk(s.pcs[a.tid], s.next, list);
  }

  /** What the other threads' poppers read stays true: only the popper itself unlinks. */
  lemma OthersStayOk(s: State, list: seq<Block>, a: Action, t: State, list': seq<Block>, i: nat)
    requires Inv(s, list) && OnePopper(s, list) && Enabled(s, a) && i < |s.pcs| && i != a.tid
    requires t == Next(s, a) && list' == ListAfter(list, EventOf(s, a))
    ensures |t.pcs| == |s.pcs| && PopperOk(t.pcs[i], t.next, list')
  {
    assert PopperOk(s.pcs[i], s.next, list);
    assert CallOk(s.pcs[a.tid], s.next, s.held, list);
    if EventOf(s, a).Some? && EventOf(s, a).value.Popped? {
      assert Popping(s.pcs[a.tid]) && !Popping(s.pcs[i]);
    }
  }

  lemma OwnStaysOk(s: State, list: seq<Block>, a: Action, t: State, list': seq<Block>)
    requires Inv(s, list) && OnePopper(s, list) && Enabled(s, a)
    requires t == Next(s, a) && list' == ListAfter(list, EventOf(s, a))
    ensures |t.pcs| == |s.pcs| && PopperOk(t.pcs[a.tid], t.next, list')
  {
    if a.Advance? {
      var pc := s.pcs[a.tid];
      assert PopperOk(pc, s.next, list);
      assert Popping(pc) && EventOf(s, a).None? ==> Next(s, a).next == s.next;
      assert !Popping(pc) || EventOf(s, a).Some? ==> !Popping(Next(s, a).pcs[a.tid]);
    }
  }

  lemma StillOnePopping(s: State, a: Action)
    requires AtMostOnePopping(s.pcs) && Enabled(s, a) && Disciplined(s, a)
    ensures AtMostOnePopping(Next(s, a).pcs)
  {
    var pcs := Next(s, a).pcs;
    assert forall i :: 0 <= i < |pcs| && i != a.tid ==> pcs[i] == s.pcs[i];
    assert Popping(pcs[a.tid]) ==> Popping(s.pcs[a.tid]) || a.StartPop? || a.StartPopSafe?;
  }

  lemma OnePopperStep(s: State, list: seq<Block>, a: Action)
    requires Inv(s, list) && OnePopper(s, list) && Enabled(s, a) && Disciplined(s, a)
    ensures OnePopper(Next(s, a), ListAfter(list, EventOf(s, a)))
  {
    var t, list' := Next(s, a), ListAfter(list, EventOf(s, a));
    StillOnePopping(s, a);
    OwnStaysOk(s, list, a, t, list');
    forall i | 0 <= i < |s.pcs| ensures PopperOk(t.pcs[i], t.next, list') {
      if i != a.tid { OthersStayOk(s, list, a, t, list', i); }
    }
  }

  /** Disciplined and timely runs are sound. */
  lemma {:induction false} DisciplinedIsSound(s: State, list: seq<Block>, run: seq<Action>)
    requires Inv(s, list) && OnePopper(s, list) && IsRun(s, run) && DisciplinedRun(s, run)
    ensures SoundRun(s, run) <==> TimelyRun(s, run)
    decreases |run|
  {
    if run != [] {
      var a := run[0];
      TimelyIsSound(s, list, a);
      if Timely(s, a) {
        StepRefines(s, list, a);
        OnePopperStep(s, list, a);
        DisciplinedIsSound(Next(s, a), ListAfter(list, EventOf(s, a)), run[1..]);
      }
    }
  }

  /**
    With one popper at a time and any number of pushers, a run refines the atomic stack and keeps the
    pool intact exactly when every plain store finds its block still on top; compare-and-swap pops
    need no condition.
  */
  lemma RunRefinesStack(s: State, list: seq<Block>, run: seq<Action>)
    requires Inv(s, list) && OnePopper(s, list) && IsRun(s, run) && DisciplinedRun(s, run)
    ensures IntactThroughout(s, run) <==> TimelyRun(s, run)
    ensures TimelyRun(s, run) ==> Replay(list, EventsOf(s, run)).Some?
    ensures TimelyRun(s, run) ==> Inv(After(s, run), Replay(list, EventsOf(s, run)).value)
  {
    DisciplinedIsSound(s, list, run);
    RunIntactIffSound(s, run);
    if SoundRun(s, run) { SoundRunRefinesStack(s, list, run); }
  }

  predicate NoPlainPop(s: State, run: seq<Action>)
  {
    && (forall i :: 0 <= i < |run| ==> !run[i].StartPopSafe?)
    && (forall i :: 0 <= i < |s.pcs| ==> !s.pcs[i].SafeLoad? && !s.pcs[i].SafeNext? && !s.pcs[i].SafeStore?)
  }

  /** The common and the L2 pool have no plain store, so nothing is asked of their runs but one popper. */
  lemma {:induction false} NoPlainPopIsTimely(s: State, run: seq<Action>)
    requires IsRun(s, run) && NoPlainPop(s, run)
    ensures TimelyRun(s, run)
    decreases |run|
  {
    if run != [] {
      NoPlainPopIsTimely(Next(s, run[0]), run[1..]);
    }
  }

  /** When no call is running, the pool accounts for everything: `count` is the length, no block is lost. */
  lemma QuiescentPool(n: nat, threads: nat, run: seq<Action>)
    requires IsRun(InitialPool(n, threads), run) && SoundRun(InitialPool(n, threads), run)
    requires forall i :: 0 <= i < |After(InitialPool(n, threads), run).pcs| ==>
               After(InitialPool(n, threads), run).pcs[i].Idle?
    ensures var s := After(InitialPool(n, threads), run);
            exists list :: && Chain(s.head, s.next, list)
                           && s.count == |list|
                           && (forall b: Block :: b < |s.next| ==> (b in list <==> b !in s.held))
                           && (forall i, j :: 0 <= i < j < |list| ==> list[i] != list[j])
  {
    InitialPoolInv(n, threads);
    var s0 := InitialPool(n, threads);
    SoundRunRefinesStack(s0, Range(n), run);
    var s := After(s0, run);
    var list := Replay(Range(n), EventsOf(s0, run)).value;
    NothingOwed(s.pcs);
    assert forall b :: !InACall(s.pcs, b);
  }

  // ----- Each call takes effect once

  function StartsBy(run: seq<Action>, tid: nat): nat {
    if run == [] then 0
    else (if !run[0].Advance? && !run[0].Decline? && run[0].tid == tid then 1 else 0) + StartsBy(run[1..], tid)
  }

  function EventsBy(s: State, run: seq<Action>, tid: nat): nat
    requires IsRun(s, run)
    decreases |run|
  {
    if run == [] then 0
    else (if run[0].tid == tid && EventOf(s, run[0]).Some? then 1 else 0) + EventsBy(Next(s, run[0]), run[1..], tid)
  }

  /** 1 for a call that has not yet taken effect. */
  function Unsettled(pc: Pc): nat {
    if Popping(pc) || pc.PushLoad? || pc.PushStore? || pc.PushCas? then 1 else 0
  }

  /**
    Every call has exactly one event, between its start and its return: a thread's events and its
    unsettled call add up to the calls it started.
  */
  lemma {:induction false} OneEventPerCall(s: State, run: seq<Action>, tid: nat)
    requires IsRun(s, run) && tid < |s.pcs|
    ensures |After(s, run).pcs| == |s.pcs|
    ensures Unsettled(s.pcs[tid]) + StartsBy(run, tid) == EventsBy(s, run, tid) + Unsettled(After(s, run).pcs[tid])
    decreases |run|
  {
    if run != [] {
      OneEventPerCall(Next(s, run[0]), run[1..], tid);
    }
  }

  function StepsBy(run: seq<Action>, tid: nat): nat {
    if run == [] then 0 else (if run[0].tid == tid then 1 else 0) + StepsBy(run[1..], tid)
  }

  /** The pushes and pops of other threads that take effect in a run. */
  function ProgressByOthers(s: State, run: seq<Action>, tid: nat): nat
    requires IsRun(s, run)
    decreases |run|
  {
    if run == [] then 0
    else
      var e := EventOf(s, run[0]);
      (if run[0].tid != tid && e.Some? && (e.value.Pushed? || e.value.Popped?) then 1 else 0)
      + ProgressByOthers(Next(s, run[0]), run[1..], tid)
  }

  lemma {:induction false} HeadMoves(s: State, run: seq<Action>, tid: nat)
    requires IsRun(s, run) && EventsBy(s, run, tid) == 0 && After(s, run).head != s.head
    ensures ProgressByOthers(s, run, tid) > 0
    decreases |run|
  {
    var t := Next(s, run[0]);
    if t.head == s.head { HeadMoves(t, run[1..], tid); }
  }

  /** The head a push or pop compares with: what its load saw. */
  function Seen(pc: Pc): Option<Link> {
    match pc
    case PushStore(_, seen) => Some(seen)
    case PushCas(_, seen) => Some(seen)
    case PopNext(top) => Some(Some(top))
    case PopCas(top, _) => Some(Some(top))
    case _ => None
  }

  /** Between its load and its swap a call remembers what it saw and does nothing visible. */
  lemma {:induction false} AttemptGoesOn(s: State, run: seq<Action>, tid: nat)
    requires IsRun(s, run) && tid < |s.pcs| && Seen(s.pcs[tid]).Some?
    requires StepsBy(run, tid) == if s.pcs[tid].PushStore? || s.pcs[tid].PopNext? then 1 else 0
    ensures EventsBy(s, run, tid) == 0 && |After(s, run).pcs| == |s.pcs|
    ensures After(s, run).pcs[tid].PushCas? || After(s, run).pcs[tid].PopCas?
    ensures Seen(After(s, run).pcs[tid]) == Seen(s.pcs[tid])
    decreases |run|
  {
    if run != [] { AttemptGoesOn(Next(s, run[0]), run[1..], tid); }
  }

  /**
    Lock freedom: take any attempt of a push or pop, from its load of `head` through its second
    access to the point of its compare-and-swap, with the other threads running in between.  If
    the swap fails, a push or pop of another thread took effect since the load.
  */
  lemma SwapFailsOnlyAfterProgress(s: State, run: seq<Action>, tid: nat)
    requires tid < |s.pcs| && (s.pcs[tid].PushLoad? || (s.pcs[tid].PopLoad? && s.head.Some?))
    requires IsRun(s, [Advance(tid)] + run) && StepsBy(run, tid) == 1
    ensures var t := After(s, [Advance(tid)] + run);
            && |t.pcs| == |s.pcs| && (t.pcs[tid].PushCas? || t.pcs[tid].PopCas?)
            && (EventOf(t, Advance(tid)).None? ==> ProgressByOthers(s, [Advance(tid)] + run, tid) > 0)
  {
    var all := [Advance(tid)] + run;
    assert all[1..] == run;
    var s1 := Next(s, Advance(tid));
    AttemptGoesOn(s1, run, tid);
    if After(s1, run).head != s1.head { HeadMoves(s1, run, tid); }
  }

  // ----- The plain store beside pushes

  predicate AllPushed(events: seq<Event>) {
    forall k :: 0 <= k < |events| ==> events[k].Pushed?
  }

  /** A plain pop that has read its block and not yet stored. */
  predicate Waits(pc: Pc, top: Block) {
    (pc.SafeNext? || pc.SafeStore?) && pc.top == top
  }

  /** While the only popper waits, the others can only push. */
  lemma {:induction false} OnlyPushes(s: State, list: seq<Block>, run: seq<Action>, tid: nat, top: Block)
    requires Inv(s, list) && OnePopper(s, list) && IsRun(s, run) && DisciplinedRun(s, run)
    requires tid < |s.pcs| && Waits(s.pcs[tid], top) && EventsBy(s, run, tid) == 0
    ensures AllPushed(EventsOf(s, run)) && Waits(After(s, run).pcs[tid], top)
    decreases |run|
  {
    if run != [] {
      var t, list' := Next(s, run[0]), ListAfter(list, EventOf(s, run[0]));
      WaitingStep(s, list, run[0], tid, top, t, list');
      OnlyPushes(t, list', run[1..], tid, top);
    }
  }

  /** So the list grows on top of the popper's block, by one for each push. */
  lemma {:induction false} ListGrows(s: State, list: seq<Block>, run: seq<Action>, tid: nat, top: Block)
    requires Inv(s, list) && OnePopper(s, list) && IsRun(s, run) && DisciplinedRun(s, run)
    requires tid < |s.pcs| && Waits(s.pcs[tid], top) && EventsBy(s, run, tid) == 0
    ensures Grown(After(s, run), list, |EventsOf(s, run)|)
    decreases |run|
  {
    if run == [] {
      assert [] + list == list;
      assert GrownBy(s, list, []);
    } else {
      var e, t := EventOf(s, run[0]), Next(s, run[0]);
      var list' := ListAfter(list, e);
      WaitingStep(s, list, run[0], tid, top, t, list');
      ListGrows(t, list', run[1..], tid, top);
      GrownMore(After(t, run[1..]), list, e, |EventsOf(t, run[1..])|);
    }
  }

  /** One step while a plain pop waits with its block. */
  lemma WaitingStep(s: State, list: seq<Block>, a: Action, tid: nat, top: Block, t: State, list': seq<Block>)
    requires Inv(s, list) && OnePopper(s, list) && Enabled(s, a) && Disciplined(s, a)
    requires tid < |s.pcs| && Waits(s.pcs[tid], top) && (a.tid == tid ==> EventOf(s, a).None?)
    requires t == Next(s, a) && list' == ListAfter(list, EventOf(s, a))
    ensures EventOf(s, a).Some? ==> EventOf(s, a).value.Pushed?
    ensures Inv(t, list') && OnePopper(t, list') && |t.pcs| == |s.pcs| && Waits(t.pcs[tid], top)
  {
    OnePushOrNothing(s, list, a, tid, top);
    PlainPopStep(s, a, tid, top);
    StepRefines(s, list, a);
    OnePopperStep(s, list, a);
  }

  ghost predicate GrownBy(t: State, list: seq<Block>, pushed: seq<Block>) {
    Inv(t, pushed + list) && OnePopper(t, pushed + list)
  }

  /** The list has grown by `n` blocks on top. */
  ghost predicate Grown(t: State, list: seq<Block>, n: nat) {
    exists pushed :: |pushed| == n && GrownBy(t, list, pushed)
  }

  lemma GrownMore(t: State, list: seq<Block>, e: Option<Event>, n: nat)
    requires Grown(t, ListAfter(list, e), n) && (e.Some? ==> e.value.Pushed?)
    ensures Grown(t, list, if e.Some? then n + 1 else n)
  {
    var more :| |more| == n && GrownBy(t, ListAfter(list, e), more);
    var pushed := more + if e.Some? then [e.value.block] else [];
    assert pushed + list == more + ListAfter(list, e);
    assert GrownBy(t, list, pushed);
  }

  /** While a plain pop waits with its block, every step is sound and is a push or silent. */
  lemma OnePushOrNothing(s: State, list: seq<Block>, a: Action, tid: nat, top: Block)
    requires OnePopper(s, list) && Enabled(s, a) && Disciplined(s, a)
    requires tid < |s.pcs| && Waits(s.pcs[tid], top) && (a.tid == tid ==> EventOf(s, a).None?)
    ensures EventOf(s, a).Some? ==> EventOf(s, a).value.Pushed?
    ensures Sound(s, a)
  {
    assert a.tid != tid ==> !Popping(s.pcs[a.tid]);
  }

  lemma PlainPopStep(s: State, a: Action, tid: nat, top: Block)
    requires Enabled(s, a) && tid < |s.pcs| && Waits(s.pcs[tid], top) && (a.tid == tid ==> EventOf(s, a).None?)
    ensures Waits(Next(s, a).pcs[tid], top)
  {
  }

  /**
    The quarantine's pop, alone among any number of pushers, may store exactly when no push has taken
    effect since its load of `head`; nothing else can have taken effect.
  */
  lemma PlainStoreSoundIffNoPush(s: State, list: seq<Block>, run: seq<Action>, tid: nat)
    requires Inv(s, list) && OnePopper(s, list) && tid < |s.pcs| && s.pcs[tid].SafeLoad? && s.head.Some?
    requires IsRun(s, [Advance(tid)] + run) && DisciplinedRun(s, [Advance(tid)] + run)
    requires EventsBy(s, [Advance(tid)] + run, tid) == 0 && After(s, [Advance(tid)] + run).pcs[tid].SafeStore?
    ensures var t := After(s, [Advance(tid)] + run);
            var events := EventsOf(s, [Advance(tid)] + run);
            && AllPushed(events)
            && (Intact(Next(t, Advance(tid))) <==> events == [])
  {
    var all := [Advance(tid)] + run;
    assert all[1..] == run;
    var s1 := Next(s, Advance(tid));
    StepRefines(s, list, Advance(tid));
    OnePopperStep(s, list, Advance(tid));
    OnlyPushes(s1, list, run, tid, s.head.value);
    ListGrows(s1, list, run, tid, s.head.value);
    var t, events := After(s1, run), EventsOf(s1, run);
    var pushed :| |pushed| == |events| && GrownBy(t, list, pushed);
    var now := pushed + list;
    assert now[|pushed|] == list[0] == t.pcs[tid].top;
    TimelyIsSound(t, now, Advance(tid));
    IntactIffSound(t, Advance(tid));
  }

  // ----- Why one popper

  lemma Prepend(s: State, a: Action, run: seq<Action>)
    requires Enabled(s, a) && IsRun(Next(s, a), run)
    ensures IsRun(s, [a] + run) && After(s, [a] + run) == After(Next(s, a), run)
  {
  }

  lemma {:induction false} Append(s: State, run: seq<Action>, more: seq<Action>)
    requires IsRun(s, run) && IsRun(After(s, run), more)
    ensures IsRun(s, run + more) && After(s, run + more) == After(After(s, run), more)
    decreases |run|
  {
    if run == [] {
      assert run + more == more;
    } else {
      Append(Next(s, run[0]), run[1..], more);
      assert run + more == [run[0]] + (run[1..] + more);
      Prepend(s, run[0], run[1..] + more);
    }
  }

  /** An uninterrupted pop takes the top block. */
  lemma SoloPop(s: State, tid: nat) returns (run: seq<Action>)
    requires tid < |s.pcs| && s.pcs[tid].Idle? && s.head.Some? && s.head.value < |s.next|
    ensures IsRun(s, run)
    ensures After(s, run) ==
            s.(head := s.next[s.head.value], count := s.count - 1, held := s.held + {s.head.value})
  {
    var s1 := Next(s, StartPop(tid));
    var s2 := Next(s1, Advance(tid));
    var s3 := Next(s2, Advance(tid));
    var s4 := Next(s3, Advance(tid));
    Prepend(s4, Advance(tid), []);
    Prepend(s3, Advance(tid), [Advance(tid)]);
    Prepend(s2, Advance(tid), [Advance(tid)] + [Advance(tid)]);
    Prepend(s1, Advance(tid), [Advance(tid)] + ([Advance(tid)] + [Advance(tid)]));
    run := [StartPop(tid)] + ([Advance(tid)] + ([Advance(tid)] + ([Advance(tid)] + [Advance(tid)])));
    Prepend(s, StartPop(tid), run[1..]);
    assert Next(s4, Advance(tid)).pcs == s.pcs;
  }

  /** An uninterrupted push puts the block on top. */
  lemma SoloPush(s: State, tid: nat, b: Block) returns (run: seq<Action>)
    requires tid < |s.pcs| && s.pcs[tid].Idle? && b in s.held && b < |s.next|
    ensures IsRun(s, run)
    ensures After(s, run) ==
            s.(head := Some(b), next := s.next[b := s.head], count := s.count + 1, held := s.held - {b})
  {
    var s1 := Next(s, StartPush(tid, b));
    var s2 := Next(s1, Advance(tid));
    var s3 := Next(s2, Advance(tid));
    var s4 := Next(s3, Advance(tid));
    Prepend(s4, Advance(tid), []);
    Prepend(s3, Advance(tid), [Advance(tid)]);
    Prepend(s2, Advance(tid), [Advance(tid)] + [Advance(tid)]);
    Prepend(s1, Advance(tid), [Advance(tid)] + ([Advance(tid)] + [Advance(tid)]));
    run := [StartPush(tid, b)] + ([Advance(tid)] + ([Advance(tid)] + ([Advance(tid)] + [Advance(tid)])));
    Prepend(s, StartPush(tid, b), run[1..]);
    assert Next(s4, Advance(tid)).pcs == s.pcs;
  }

  /**
    With two concurrent poppers the stack breaks.  Thread 0 reads block 0 and its successor 1;
    thread 1 then pops 0 and 1 and pushes 0 back; thread 0's swap still succeeds and links
    block 1, which a client holds, back into the pool.
  */
  lemma TwoPoppersDuplicateABlock() returns (run: seq<Action>)
    ensures IsRun(InitialPool(3, 2), run)
    ensures var s := After(InitialPool(3, 2), run);
            s.head == Some(1) && 1 in s.held && forall list :: !Inv(s, list)
  {
    var s0 := InitialPool(3, 2);
    var s1 := Next(s0, StartPop(0));
    var s2 := Next(s1, Advance(0));
    var s3 := Next(s2, Advance(0));
    assert s3.pcs[0] == PopCas(0, Some(1));
    Prepend(s2, Advance(0), []);
    Prepend(s1, Advance(0), [Advance(0)]);
    Prepend(s0, StartPop(0), [Advance(0)] + [Advance(0)]);
    run := [StartPop(0)] + ([Advance(0)] + [Advance(0)]);
    var more := SoloPop(s3, 1);
    Append(s0, run, more);
    run := run + more;
    var s4 := After(s0, run);
    more := SoloPop(s4, 1);
    Append(s0, run, more);
    run := run + more;
    var s5 := After(s0, run);
    more := SoloPush(s5, 1, 0);
    Append(s0, run, more);
    run := run + more;
    var s6 := After(s0, run);
    Prepend(s6, Advance(0), []);
    Append(s0, run, [Advance(0)]);
    run := run + [Advance(0)];
  }

  /** An empty pool with a block in nobody's hands is beyond repair. */
  lemma LostBlock(s: State, b: Block)
    requires s.head.None? && b < |s.next| && b !in s.held && !InACall(s.pcs, b)
    ensures forall list :: !Inv(s, list)
  {
  }

  /** Of two blocks, thread 1 holds block 0, and thread 0 is about to store block 1's empty link. */
  lemma HalfDonePlainPop() returns (run: seq<Action>)
    ensures IsRun(InitialPool(2, 2), run)
    ensures After(InitialPool(2, 2), run) == State(Some(1), [Some(1), None], 1, {0}, [SafeStore(1, None), Idle])
  {
    var s0 := InitialPool(2, 2);
    run := SoloPop(s0, 1);
    var s1 := After(s0, run);
    var s2 := Next(s1, StartPopSafe(0));
    var s3 := Next(s2, Advance(0));
    Prepend(s3, Advance(0), []);
    Prepend(s2, Advance(0), [Advance(0)]);
    Prepend(s1, StartPopSafe(0), [Advance(0)] + [Advance(0)]);
    Append(s0, run, [StartPopSafe(0)] + ([Advance(0)] + [Advance(0)]));
    run := run + ([StartPopSafe(0)] + ([Advance(0)] + [Advance(0)]));
    assert s0.next == [Some(1), None] && s0.pcs == [Idle, Idle];
  }

  /**
    The quarantine's plain store is not safe beside a push.  Thread 0 reads the last block and its
    empty link; thread 1 pushes block 0 on top; thread 0's store then empties the pool, and block
    0 is on no list, held by nobody and inside no call.
  */
  lemma PlainStoreLosesABlock() returns (run: seq<Action>)
    ensures IsRun(InitialPool(2, 2), run)
    ensures var s := After(InitialPool(2, 2), run);
            s.head == None && 0 !in s.held && !InACall(s.pcs, 0) && forall list :: !Inv(s, list)
  {
    var s0 := InitialPool(2, 2);
    run := HalfDonePlainPop();
    var more := SoloPush(After(s0, run), 1, 0);
    Append(s0, run, more);
    run := run + more;
    Prepend(After(s0, run), Advance(0), []);
    Append(s0, run, [Advance(0)]);
    run := run + [Advance(0)];
    assert After(s0, run).pcs == [PopCount(1), Idle];
    LostBlock(After(s0, run), 0);
  }
}
