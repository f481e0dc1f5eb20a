/**
  The compress-hash-displace table: `build` searches one seed per bucket, largest bucket first,
  so that all keys land in distinct slots; `get` recomputes the slot of a key.

  Everything is proved for every pair of hash functions that stay in range; `Hash1` and `Hash2`
  are the program's own pair.
*/
module PerfectHash {
  import opened Outcomes
  import opened Sequences

  datatype Item<+K, +V> = Item(key: K, value: V)

  /** An entry is uninitialized memory until an item's value is stored in it. */
  datatype Slot<+V> = Undefined | Filled(value: V)

  datatype Table<+V> = Table(entries: seq<Slot<V>>, seeds: seq<nat>, numKeys: nat)

  datatype BuildError = CHDFailed

  const SEED_LIMIT: nat := 1_000_000

  /** Both hashes stay below the bound they are given. */
  ghost predicate InRange<K(!new)>(h1: (K, nat) -> nat, h2: (K, nat, nat) -> nat) {
    && (forall k, m :: m > 0 ==> h1(k, m) < m)
    && (forall k, seed, m :: m > 0 ==> h2(k, seed, m) < m)
  }

  /** Exclusive or of the binary digits. */
  function Xor(a: nat, b: nat): nat {
    if a == 0 then b
    else if b == 0 then a
    else 2 * Xor(a / 2, b / 2) + (a % 2 + b % 2) % 2
  }

  function Hash1(key: nat, m: nat): nat {
    if m == 0 then 0 else key * 0x9E37_79B9_7F4A_7C15 % 0x1_0000_0000_0000_0000 / 0x1_0000_0000 % m
  }

  function Hash2(key: nat, seed: nat, m: nat): nat {
    if m == 0 then 0
    else Xor(key, seed * 0x1_0000_0000 + seed) * 0x517C_C1B7_2722_0A95 % 0x1_0000_0000_0000_0000 / 0x1_0000_0000 % m
  }

  lemma ProgramHashesInRange()
    ensures InRange(Hash1, Hash2)
  {
  }

  function NumBuckets(n: nat): nat {
    (n + 3) / 4
  }

  /** The fewest buckets that leave room for all keys at four to a bucket. */
  lemma FourToABucket(n: nat)
    ensures n <= 4 * NumBuckets(n) < n + 4
  {
  }

  /** The keys of bucket `b`, in item order. */
  function BucketKeys<K, V>(items: seq<Item<K, V>>, h1: (K, nat) -> nat, m: nat, b: nat): seq<K> {
    if items == [] then []
    else
      var last := |items| - 1;
      BucketKeys(items[..last], h1, m, b) + (if h1(items[last].key, m) == b then [items[last].key] else [])
  }

  /** The seed places all keys in distinct slots, none of them taken. */
  ghost predicate Fits<K>(keys: seq<K>, h2: (K, nat, nat) -> nat, seed: nat, size: nat, used: set<nat>) {
    && (forall i :: 0 <= i < |keys| ==> h2(keys[i], seed, size) !in used)
    && (forall i, j :: 0 <= i < j < |keys| ==> h2(keys[i], seed, size) != h2(keys[j], seed, size))
  }

  /** The first seed that fits. */
  ghost predicate LeastFit<K>(keys: seq<K>, h2: (K, nat, nat) -> nat, seed: nat, size: nat, used: set<nat>) {
    && seed < SEED_LIMIT && Fits(keys, h2, seed, size, used)
    && forall s :: 0 <= s < seed ==> !Fits(keys, h2, s, size, used)
  }

  ghost predicate NoFit<K>(keys: seq<K>, h2: (K, nat, nat) -> nat, size: nat, used: set<nat>) {
    forall s :: 0 <= s < SEED_LIMIT ==> !Fits(keys, h2, s, size, used)
  }

  ghost function SlotsOf<K>(keys: seq<K>, h2: (K, nat, nat) -> nat, seed: nat, size: nat): set<nat> {
    set i | 0 <= i < |keys| :: h2(keys[i], seed, size)
  }

  /** The problem `build` solves: the buckets of the items and a table of `size` slots. */
  datatype Problem<!K> = Problem(buckets: seq<seq<K>>, h2: (K, nat, nat) -> nat, size: nat)

  ghost function ProblemOf<K, V>(items: seq<Item<K, V>>, h1: (K, nat) -> nat, h2: (K, nat, nat) -> nat): Problem<K> {
    var m := NumBuckets(|items|);
    Problem(seq(m, (b: nat) => BucketKeys(items, h1, m, b)), h2, |items| + m)
  }

  /** The slots taken by the buckets in `order`. */
  ghost function Used<K>(p: Problem<K>, order: seq<nat>, seeds: seq<nat>): set<nat>
    requires |seeds| == |p.buckets| && forall i :: 0 <= i < |order| ==> order[i] < |p.buckets|
  {
    if order == [] then {}
    else
      var b := order[|order| - 1];
      Used(p, order[..|order| - 1], seeds) + SlotsOf(p.buckets[b], p.h2, seeds[b], p.size)
  }

  ghost predicate InBounds<K>(p: Problem<K>, order: seq<nat>, seeds: seq<nat>) {
    |seeds| == |p.buckets| && forall i :: 0 <= i < |order| ==> order[i] < |p.buckets|
  }

  /** Each bucket in turn has the first seed that avoids the buckets before it. */
  ghost predicate Greedy<K>(p: Problem<K>, order: seq<nat>, seeds: seq<nat>, k: nat)
    requires InBounds(p, order, seeds) && k <= |order|
  {
    forall q :: 0 <= q < k ==>
      LeastFit(p.buckets[order[q]], p.h2, seeds[order[q]], p.size, Used(p, order[..q], seeds))
  }

  /** Every bucket once, larger buckets first. */
  ghost predicate IsOrder<K>(p: Problem<K>, order: seq<nat>) {
    && IsPermutation(order, |p.buckets|)
    && (forall i :: 0 <= i < |order| ==> order[i] < |p.buckets|)
    && (forall i, j :: 0 <= i < j < |order| ==> |p.buckets[order[j]]| <= |p.buckets[order[i]]|)
  }

  // ----- Looking up

  function SlotFor<K>(seeds: seq<nat>, size: nat, h1: (K, nat) -> nat, h2: (K, nat, nat) -> nat, key: K): nat
    requires h1(key, |seeds|) < |seeds|
  {
    h2(key, seeds[h1(key, |seeds|)], size)
  }

  function Get<K, V>(t: Table<V>, h1: (K, nat) -> nat, h2: (K, nat, nat) -> nat, key: K): Option<Slot<V>>
    requires t.numKeys > 0 ==> h1(key, |t.seeds|) < |t.seeds|
    requires t.numKeys > 0 ==> SlotFor(t.seeds, |t.entries|, h1, h2, key) < |t.entries|
  {
    if t.numKeys == 0 then None
    else Some(t.entries[SlotFor(t.seeds, |t.entries|, h1, h2, key)])
  }

  /** No keys are stored, so a lookup answers null exactly when the table is empty, never for an absent key. */
  lemma NullOnlyWhenEmpty<K(!new), V>(t: Table<V>, h1: (K, nat) -> nat, h2: (K, nat, nat) -> nat, key: K)
    requires InRange(h1, h2) && (t.numKeys > 0 ==> |t.seeds| > 0 && |t.entries| > 0)
    ensures Get(t, h1, h2, key) == None <==> t.numKeys == 0
  {
  }

  // ----- Buckets and items

  lemma {:induction false} BucketPrefix<K, V>(items: seq<Item<K, V>>, h1: (K, nat) -> nat, m: nat, b: nat, i: nat)
    requires i <= |items|
    ensures BucketKeys(items[..i], h1, m, b) <= BucketKeys(items, h1, m, b)
    decreases |items|
  {
    if i == |items| {
      assert items[..i] == items;
    } else {
      var last := |items| - 1;
      assert items[..last][..i] == items[..i];
      BucketPrefix(items[..last], h1, m, b, i);
    }
  }

  /** Item `i` is its bucket's key number `|BucketKeys(items[..i])|`. */
  lemma BucketPosition<K, V>(items: seq<Item<K, V>>, h1: (K, nat) -> nat, m: nat, i: nat)
    requires i < |items|
    ensures var b := h1(items[i].key, m);
            var pos := |BucketKeys(items[..i], h1, m, b)|;
            pos < |BucketKeys(items[..i + 1], h1, m, b)| <= |BucketKeys(items, h1, m, b)|
            && BucketKeys(items, h1, m, b)[pos] == items[i].key
  {
    var b := h1(items[i].key, m);
    assert items[..i + 1][..i] == items[..i];
    BucketPrefix(items, h1, m, b, i + 1);
  }

  /** Two items of one bucket are two of its keys. */
  lemma BucketPair<K, V>(items: seq<Item<K, V>>, h1: (K, nat) -> nat, m: nat, i: nat, j: nat) returns (a: nat, c: nat)
    requires i < j < |items| && h1(items[i].key, m) == h1(items[j].key, m)
    ensures var keys := BucketKeys(items, h1, m, h1(items[i].key, m));
            a < c < |keys| && keys[a] == items[i].key && keys[c] == items[j].key
  {
    var b := h1(items[i].key, m);
    BucketPosition(items, h1, m, i);
    BucketPosition(items, h1, m, j);
    assert items[..j][..i + 1] == items[..i + 1];
    BucketPrefix(items[..j], h1, m, b, i + 1);
    a, c := |BucketKeys(items[..i], h1, m, b)|, |BucketKeys(items[..j], h1, m, b)|;
  }

  lemma {:induction false} UsedHolds<K>(p: Problem<K>, order: seq<nat>, seeds: seq<nat>, q: nat, i: nat)
    requires InBounds(p, order, seeds) && q < |order| && i < |p.buckets[order[q]]|
    ensures p.h2(p.buckets[order[q]][i], seeds[order[q]], p.size) in Used(p, order, seeds)
    decreases |order|
  {
    if q < |order| - 1 { UsedHolds(p, order[..|order| - 1], seeds, q, i); }
  }

  ghost function PlaceOf<K>(p: Problem<K>, seeds: seq<nat>, b: nat, i: nat): nat
    requires |seeds| == |p.buckets| && b < |p.buckets| && i < |p.buckets[b]|
  {
    p.h2(p.buckets[b][i], seeds[b], p.size)
  }

  /** Keys of one bucket, and keys of two, are placed apart. */
  lemma PlacedApart<K>(p: Problem<K>, order: seq<nat>, seeds: seq<nat>, b: nat, i: nat, c: nat, j: nat)
    requires InBounds(p, order, seeds) && IsPermutation(order, |p.buckets|) && Greedy(p, order, seeds, |order|)
    requires b < |p.buckets| && i < |p.buckets[b]| && c < |p.buckets| && j < |p.buckets[c]|
    requires b != c || i < j
    ensures PlaceOf(p, seeds, b, i) != PlaceOf(p, seeds, c, j)
  {
    PermutationElements(order, |p.buckets|, b);
    PermutationElements(order, |p.buckets|, c);
    var q :| 0 <= q < |order| && order[q] == b;
    var r :| 0 <= r < |order| && order[r] == c;
    assert LeastFit(p.buckets[order[q]], p.h2, seeds[order[q]], p.size, Used(p, order[..q], seeds));
    assert LeastFit(p.buckets[order[r]], p.h2, seeds[order[r]], p.size, Used(p, order[..r], seeds));
    if q < r {
      UsedHolds(p, order[..r], seeds, q, i);
    } else if r < q {
      UsedHolds(p, order[..q], seeds, r, j);
    }
  }

  /** A complete greedy placement gives any two items different slots, whatever their buckets. */
  lemma SlotsDistinct<K(!new), V>(items: seq<Item<K, V>>, h1: (K, nat) -> nat, h2: (K, nat, nat) -> nat,
                                  order: seq<nat>, seeds: seq<nat>, i: nat, j: nat)
    requires InRange(h1, h2) && i < j < |items|
    requires var p := ProblemOf(items, h1, h2);
             IsPermutation(order, |p.buckets|) && InBounds(p, order, seeds) && Greedy(p, order, seeds, |order|)
    ensures SlotFor(seeds, |items| + |seeds|, h1, h2, items[i].key) !=
            SlotFor(seeds, |items| + |seeds|, h1, h2, items[j].key)
  {
    var p := ProblemOf(items, h1, h2);
    var m := |seeds|;
    var bi, bj := h1(items[i].key, m), h1(items[j].key, m);
    if bi == bj {
      var a, c := BucketPair(items, h1, m, i, j);
      PlacedApart(p, order, seeds, bi, a, bj, c);
    } else {
      BucketPosition(items, h1, m, i);
      BucketPosition(items, h1, m, j);
      PlacedApart(p, order, seeds, bi, |BucketKeys(items[..i], h1, m, bi)|, bj, |BucketKeys(items[..j], h1, m, bj)|);
    }
  }

  // ----- The search, step by step

  /** Step 1: how many keys fall into each bucket. */
  method CountBuckets<K(!new), V>(items: seq<Item<K, V>>, h1: (K, nat) -> nat, ghost h2: (K, nat, nat) -> nat, m: nat)
    returns (counts: array<nat>)
    requires InRange(h1, h2) && m > 0
    ensures fresh(counts) && counts.Length == m
    ensures forall b :: 0 <= b < m ==> counts[b] == |BucketKeys(items, h1, m, b)|
  {
    counts := new nat[m](_ => 0);
    var i := 0;
    while i < |items|
      invariant 0 <= i <= |items|
      invariant forall b :: 0 <= b < m ==> counts[b] == |BucketKeys(items[..i], h1, m, b)|
    {
      assert items[..i + 1][..i] == items[..i];
      var b := h1(items[i].key, m);
      counts[b] := counts[b] + 1;
      i := i + 1;
    }
    assert items[..i] == items;
  }

  /** The position of a largest bucket from `i` on. */
  method Largest(counts: array<nat>, order: array<nat>, i: nat) returns (best: nat)
    requires i < order.Length && forall k :: 0 <= k < order.Length ==> order[k] < counts.Length
    ensures i <= best < order.Length
    ensures forall k :: i <= k < order.Length ==> counts[order[k]] <= counts[order[best]]
  {
    best := i;
    var j := i + 1;
    while j < order.Length
      invariant i + 1 <= j <= order.Length && i <= best < j
      invariant forall k :: i <= k < j ==> counts[order[k]] <= counts[order[best]]
    {
      if counts[order[j]] > counts[order[best]] { best := j; }
      j := j + 1;
    }
  }

  method Swap(order: array<nat>, i: nat, j: nat)
    requires i < order.Length && j < order.Length
    modifies order
    ensures order[..] == old(order[..])[i := old(order[j])][j := old(order[i])]
    ensures multiset(order[..]) == multiset(old(order[..]))
  {
    order[i], order[j] := order[j], order[i];
  }

  /** The first `i` buckets of the order are in place: none is smaller than any after it. */
  predicate Selected(counts: seq<nat>, order: seq<nat>, i: nat) {
    && (forall k :: 0 <= k < |order| ==> order[k] < |counts|)
    && (forall k, l :: 0 <= k < i && k < l < |order| ==> counts[order[l]] <= counts[order[k]])
  }

  lemma SelectNext(counts: seq<nat>, order: seq<nat>, i: nat, best: nat)
    requires Selected(counts, order, i) && i <= best < |order|
    requires forall k :: i <= k < |order| ==> counts[order[k]] <= counts[order[best]]
    ensures Selected(counts, order[i := order[best]][best := order[i]], i + 1)
  {
  }

  /** One round: the largest remaining bucket comes next. */
  method SelectOne(counts: array<nat>, order: array<nat>, i: nat)
    requires counts != order && order.Length == counts.Length && i < order.Length
    requires IsPermutation(order[..], counts.Length) && Selected(counts[..], order[..], i)
    modifies order
    ensures IsPermutation(order[..], counts.Length) && Selected(counts[..], order[..], i + 1)
  {
    assert forall k :: 0 <= k < order.Length ==> order[..][k] < counts.Length;
    var best := Largest(counts, order, i);
    SelectNext(counts[..], order[..], i, best);
    Swap(order, i, best);
  }

  /** Step 2: the buckets by selection sort, largest first. */
  method OrderBuckets(counts: array<nat>) returns (order: array<nat>)
    ensures fresh(order) && order.Length == counts.Length
    ensures IsPermutation(order[..], counts.Length) && Selected(counts[..], order[..], counts.Length)
  {
    var m := counts.Length;
    order := new nat[m](i => i);
    assert order[..] == Range(m);
    var i := 0;
    while i < m
      invariant 0 <= i <= m
      invariant IsPermutation(order[..], m) && Selected(counts[..], order[..], i)
    {
      SelectOne(counts, order, i);
      i := i + 1;
    }
  }

  /** The keys of one bucket, copied out. */
  method CollectKeys<K(0), V>(items: seq<Item<K, V>>, h1: (K, nat) -> nat, m: nat, b: nat, size: nat)
    returns (keys: array<K>)
    requires size == |BucketKeys(items, h1, m, b)|
    ensures fresh(keys) && keys[..] == BucketKeys(items, h1, m, b)
  {
    keys := new K[size];
    var i, ki := 0, 0;
    while i < |items|
      invariant 0 <= i <= |items|
      invariant ki == |BucketKeys(items[..i], h1, m, b)| <= size
      invariant keys[..ki] == BucketKeys(items[..i], h1, m, b)
    {
      assert items[..i + 1][..i] == items[..i];
      BucketPrefix(items, h1, m, b, i + 1);
      if h1(items[i].key, m) == b {
        keys[ki] := items[i].key;
        ki := ki + 1;
      }
      i := i + 1;
    }
    assert items[..i] == items;
  }

  ghost function Taken(used: seq<bool>): set<nat> {
    set s | 0 <= s < |used| && used[s]
  }

  /** Whether the seed places the bucket's keys on free, distinct slots. */
  method SeedFits<K(!new)>(keys: seq<K>, ghost h1: (K, nat) -> nat, h2: (K, nat, nat) -> nat, seed: nat,
                           used: array<bool>)
    returns (ok: bool)
    requires InRange(h1, h2) && used.Length > 0
    ensures ok <==> Fits(keys, h2, seed, used.Length, Taken(used[..]))
  {
    var size, i := used.Length, 0;
    while i < |keys|
      invariant 0 <= i <= |keys|
      invariant forall k :: 0 <= k < i ==> h2(keys[k], seed, size) !in Taken(used[..])
      invariant forall k, l :: 0 <= k < i && k < l < |keys| ==> h2(keys[k], seed, size) != h2(keys[l], seed, size)
    {
      var slot := h2(keys[i], seed, size);
      if used[slot] {
        assert h2(keys[i], seed, size) in Taken(used[..]);
        return false;
      }
      var j := i + 1;
      while j < |keys|
        invariant i + 1 <= j <= |keys|
        invariant forall l :: i < l < j ==> slot != h2(keys[l], seed, size)
      {
        if slot == h2(keys[j], seed, size) {
          assert h2(keys[i], seed, size) == h2(keys[j], seed, size);
          return false;
        }
        j := j + 1;
      }
      i := i + 1;
    }
    return true;
  }

  /** The first seed that fits, marked in the slot table. */
  method PlaceBucket<K(!new)>(keys: seq<K>, ghost h1: (K, nat) -> nat, h2: (K, nat, nat) -> nat, used: array<bool>)
    returns (seed: Option<nat>)
    requires InRange(h1, h2) && used.Length > 0
    modifies used
    ensures seed.Some? ==>
              && LeastFit(keys, h2, seed.value, used.Length, old(Taken(used[..])))
              && Taken(used[..]) == old(Taken(used[..])) + SlotsOf(keys, h2, seed.value, used.Length)
    ensures seed.None? ==> NoFit(keys, h2, used.Length, old(Taken(used[..])))
  {
    var s := 0;
    while s < SEED_LIMIT
      invariant 0 <= s <= SEED_LIMIT && used[..] == old(used[..])
      invariant forall t :: 0 <= t < s ==> !Fits(keys, h2, t, used.Length, Taken(used[..]))
    {
      var ok := SeedFits(keys, h1, h2, s, used);
      if ok {
        MarkSlots(keys, h1, h2, s, used);
        return Some(s);
      }
      s := s + 1;
    }
    return None;
  }

  method MarkSlots<K(!new)>(keys: seq<K>, ghost h1: (K, nat) -> nat, h2: (K, nat, nat) -> nat, seed: nat,
                            used: array<bool>)
    requires InRange(h1, h2) && used.Length > 0
    modifies used
    ensures Taken(used[..]) == old(Taken(used[..])) + SlotsOf(keys, h2, seed, used.Length)
  {
    var i := 0;
    while i < |keys|
      invariant 0 <= i <= |keys|
      invariant Taken(used[..]) == old(Taken(used[..])) + SlotsOf(keys[..i], h2, seed, used.Length)
    {
      ghost var before := used[..];
      var slot := h2(keys[i], seed, used.Length);
      used[slot] := true;
      assert Taken(used[..]) == Taken(before) + {slot};
      SlotsOfSnoc(keys[..i], keys[i], h2, seed, used.Length);
      assert keys[..i + 1] == keys[..i] + [keys[i]];
      i := i + 1;
    }
    assert keys[..i] == keys;
  }

  lemma SlotsOfSnoc<K>(keys: seq<K>, key: K, h2: (K, nat, nat) -> nat, seed: nat, size: nat)
    ensures SlotsOf(keys + [key], h2, seed, size) == SlotsOf(keys, h2, seed, size) + {h2(key, seed, size)}
  {
    var all := keys + [key];
    assert forall i :: 0 <= i < |keys| ==> all[i] == keys[i];
    assert all[|keys|] == key;
    forall s | s in SlotsOf(keys, h2, seed, size) ensures s in SlotsOf(all, h2, seed, size) {
      var i :| 0 <= i < |keys| && h2(keys[i], seed, size) == s;
      assert h2(all[i], seed, size) == s;
    }
  }

  lemma {:induction false} UsedFrame<K>(p: Problem<K>, order: seq<nat>, seeds: seq<nat>, b: nat, seed: nat)
    requires InBounds(p, order, seeds) && b < |seeds| && b !in order
    ensures Used(p, order, seeds[b := seed]) == Used(p, order, seeds)
    decreases |order|
  {
    if order != [] { UsedFrame(p, order[..|order| - 1], seeds, b, seed); }
  }

  /** Fixing the next bucket's seed extends the placement. */
  lemma GreedyStep<K>(p: Problem<K>, order: seq<nat>, seeds: seq<nat>, k: nat, seed: nat)
    requires InBounds(p, order, seeds) && IsPermutation(order, |p.buckets|) && k < |order|
    requires Greedy(p, order, seeds, k)
    requires LeastFit(p.buckets[order[k]], p.h2, seed, p.size, Used(p, order[..k], seeds))
    ensures var seeds' := seeds[order[k] := seed];
            && Greedy(p, order, seeds', k + 1)
            && Used(p, order[..k + 1], seeds') ==
               Used(p, order[..k], seeds) + SlotsOf(p.buckets[order[k]], p.h2, seed, p.size)
  {
    var b := order[k];
    var seeds' := seeds[b := seed];
    forall q | 0 <= q <= k
      ensures Used(p, order[..q], seeds') == Used(p, order[..q], seeds)
      ensures q < k ==> seeds'[order[q]] == seeds[order[q]]
    {
      forall r | 0 <= r < q ensures order[r] != b { PermutationDistinct(order, |p.buckets|, r, k); }
      UsedFrame(p, order[..q], seeds, b, seed);
      if q < k { PermutationDistinct(order, |p.buckets|, q, k); }
    }
    assert order[..k + 1][..k] == order[..k];
  }

  /** The problem that a list of items poses, without its definition. */
  ghost predicate Poses<K, V>(items: seq<Item<K, V>>, h1: (K, nat) -> nat, h2: (K, nat, nat) -> nat, p: Problem<K>) {
    p == ProblemOf(items, h1, h2)
  }

  /** One bucket: an empty one keeps seed 0, any other gets the first seed that fits. */
  method PlaceNext<K(0, !new), V>(items: seq<Item<K, V>>, h1: (K, nat) -> nat, h2: (K, nat, nat) -> nat,
                                  m: nat, b: nat, count: nat, used: array<bool>, ghost p: Problem<K>)
    returns (seed: Option<nat>)
    requires InRange(h1, h2) && Poses(items, h1, h2, p) && |p.buckets| == m && b < m
    requires used.Length == p.size > 0 && count == |p.buckets[b]|
    modifies used
    ensures seed.Some? ==>
              && LeastFit(p.buckets[b], p.h2, seed.value, p.size, old(Taken(used[..])))
              && Taken(used[..]) == old(Taken(used[..])) + SlotsOf(p.buckets[b], p.h2, seed.value, p.size)
    ensures seed.None? ==> NoFit(p.buckets[b], p.h2, p.size, old(Taken(used[..])))
  {
    assert p.buckets[b] == BucketKeys(items, h1, m, b);
    if count == 0 { return Some(0); }
    var keys := CollectKeys(items, h1, m, b, count);
    seed := PlaceBucket(keys[..], h1, h2, used);
  }

  /** The first `k` buckets of the order are placed and take exactly the slots `taken`. */
  ghost predicate PlacedSoFar<K>(p: Problem<K>, order: seq<nat>, seeds: seq<nat>, taken: set<nat>, k: nat) {
    && InBounds(p, order, seeds) && k <= |order|
    && Greedy(p, order, seeds, k) && taken == Used(p, order[..k], seeds)
  }

  ghost predicate PlacedAll<K>(p: Problem<K>, order: seq<nat>, seeds: seq<nat>) {
    InBounds(p, order, seeds) && Greedy(p, order, seeds, |order|)
  }

  /** The bucket at `k` has no seed around the ones placed before it. */
  ghost predicate StuckAt<K>(p: Problem<K>, order: seq<nat>, seeds: seq<nat>, k: nat) {
    && InBounds(p, order, seeds) && k < |order| && Greedy(p, order, seeds, k)
    && NoFit(p.buckets[order[k]], p.h2, p.size, Used(p, order[..k], seeds))
  }

  lemma LeastFitUnique<K>(keys: seq<K>, h2: (K, nat, nat) -> nat, a: nat, b: nat, size: nat, used: set<nat>)
    requires LeastFit(keys, h2, a, size, used) && LeastFit(keys, h2, b, size, used)
    ensures a == b
  {
  }

  /** The greedy placement of an order is unique. */
  lemma {:induction false} GreedyUnique<K>(p: Problem<K>, order: seq<nat>, seeds: seq<nat>, seeds': seq<nat>, k: nat)
    requires InBounds(p, order, seeds) && InBounds(p, order, seeds') && k <= |order|
    requires Greedy(p, order, seeds, k) && Greedy(p, order, seeds', k)
    ensures Used(p, order[..k], seeds) == Used(p, order[..k], seeds')
    ensures k > 0 ==> seeds[order[k - 1]] == seeds'[order[k - 1]]
  {
    if k > 0 {
      GreedyUnique(p, order, seeds, seeds', k - 1);
      assert order[..k][..k - 1] == order[..k - 1];
      var q, used := k - 1, Used(p, order[..k - 1], seeds);
      LeastFitUnique(p.buckets[order[q]], p.h2, seeds[order[q]], seeds'[order[q]], p.size, used);
    }
  }

  /** So an order that has a complete greedy placement is stuck nowhere. */
  lemma CompleteExcludesStuck<K>(p: Problem<K>, order: seq<nat>, seeds: seq<nat>, seeds': seq<nat>, k: nat)
    requires InBounds(p, order, seeds) && Greedy(p, order, seeds, |order|)
    ensures !StuckAt(p, order, seeds', k)
  {
    if InBounds(p, order, seeds') && k < |order| && Greedy(p, order, seeds', k) {
      GreedyUnique(p, order, seeds, seeds', k);
      var b := order[k];
      assert LeastFit(p.buckets[b], p.h2, seeds[b], p.size, Used(p, order[..k], seeds));
      assert Fits(p.buckets[b], p.h2, seeds[b], p.size, Used(p, order[..k], seeds'));
    }
  }

  lemma PlaceStep<K>(p: Problem<K>, order: seq<nat>, seeds: seq<nat>, taken: set<nat>, k: nat, seed: nat)
    requires PlacedSoFar(p, order, seeds, taken, k) && IsPermutation(order, |p.buckets|) && k < |order|
    requires LeastFit(p.buckets[order[k]], p.h2, seed, p.size, taken)
    ensures PlacedSoFar(p, order, seeds[order[k] := seed],
                        taken + SlotsOf(p.buckets[order[k]], p.h2, seed, p.size), k + 1)
  {
    GreedyStep(p, order, seeds, k, seed);
  }

  /** Bucket `k` of the order: either it is placed around the earlier ones, or no seed places it. */
  method PlaceAt<K(0, !new), V>(items: seq<Item<K, V>>, h1: (K, nat) -> nat, h2: (K, nat, nat) -> nat,
                                order: seq<nat>, k: nat, count: nat, seeds: array<nat>, used: array<bool>,
                                ghost p: Problem<K>, ghost taken: set<nat>)
    returns (ok: bool, ghost now: set<nat>)
    requires InRange(h1, h2) && Poses(items, h1, h2, p) && used.Length == p.size > 0
    requires IsPermutation(order, |p.buckets|) && k < |order| && PlacedSoFar(p, order, seeds[..], taken, k)
    requires taken == Taken(used[..]) && count == |p.buckets[order[k]]|
    modifies seeds, used
    ensures now == Taken(used[..])
    ensures ok ==> PlacedSoFar(p, order, seeds[..], now, k + 1)
    ensures !ok ==> StuckAt(p, order, seeds[..], k)
  {
    ghost var before := seeds[..];
    var seed := PlaceNext(items, h1, h2, seeds.Length, order[k], count, used, p);
    ok, now := seed.Some?, Taken(used[..]);
    assert seeds[..] == before;
    if ok {
      PlaceStep(p, order, before, taken, k, seed.value);
      seeds[order[k]] := seed.value;
      assert seeds[..] == before[order[k] := seed.value];
    }
  }

  /** The main loop: buckets in order, each placed around the ones before it. */
  method PlaceBuckets<K(0, !new), V>(items: seq<Item<K, V>>, h1: (K, nat) -> nat, h2: (K, nat, nat) -> nat,
                                     counts: seq<nat>, order: seq<nat>, ghost p: Problem<K>)
    returns (seeds: array<nat>, failed: Option<nat>)
    requires InRange(h1, h2) && |items| > 0 && Poses(items, h1, h2, p) && p.size == |items| + |p.buckets|
    requires |counts| == |p.buckets| && forall b :: 0 <= b < |counts| ==> counts[b] == |p.buckets[b]|
    requires IsPermutation(order, |p.buckets|) && forall k :: 0 <= k < |order| ==> order[k] < |p.buckets|
    ensures failed.None? ==> PlacedAll(p, order, seeds[..])
    ensures failed.Some? ==> StuckAt(p, order, seeds[..], failed.value)
  {
    seeds := new nat[|counts|](_ => 0);
    var used := new bool[|items| + |counts|](_ => false);
    ghost var taken: set<nat> := {};
    var k := 0;
    while k < |order|
      invariant 0 <= k <= |order| && taken == Taken(used[..])
      invariant PlacedSoFar(p, order, seeds[..], taken, k)
    {
      var ok;
      ok, taken := PlaceAt(items, h1, h2, order, k, counts[order[k]], seeds, used, p, taken);
      if !ok { return seeds, Some(k); }
      k := k + 1;
    }
    return seeds, None;
  }

  /** Step 3: every value into its key's slot. */
  method FillEntries<K(!new), V>(items: seq<Item<K, V>>, h1: (K, nat) -> nat, h2: (K, nat, nat) -> nat, seeds: seq<nat>)
    returns (entries: array<Slot<V>>)
    requires InRange(h1, h2) && |seeds| > 0
    requires forall i, j :: 0 <= i < j < |items| ==>
               SlotFor(seeds, |items| + |seeds|, h1, h2, items[i].key) !=
               SlotFor(seeds, |items| + |seeds|, h1, h2, items[j].key)
    ensures fresh(entries) && entries.Length == |items| + |seeds|
    ensures forall i :: 0 <= i < |items| ==>
              entries[SlotFor(seeds, |items| + |seeds|, h1, h2, items[i].key)] == Filled(items[i].value)
  {
    var size := |items| + |seeds|;
    entries := new Slot<V>[size](_ => Undefined);
    var i := 0;
    while i < |items|
      invariant 0 <= i <= |items|
      invariant forall k :: 0 <= k < i ==> entries[SlotFor(seeds, size, h1, h2, items[k].key)] == Filled(items[k].value)
    {
      entries[SlotFor(seeds, size, h1, h2, items[i].key)] := Filled(items[i].value);
      i := i + 1;
    }
  }

  ghost predicate HasDuplicate<K, V>(items: seq<Item<K, V>>) {
    exists i, j :: 0 <= i < j < |items| && items[i].key == items[j].key
  }

  /** Every item is found under its key, and no two items share a slot. */
  ghost predicate Serves<K(!new), V>(t: Table<V>, items: seq<Item<K, V>>, h1: (K, nat) -> nat, h2: (K, nat, nat) -> nat)
    requires InRange(h1, h2)
  {
    && t.numKeys == |items|
    && (t.numKeys > 0 ==> |t.seeds| > 0 && |t.entries| == |items| + |t.seeds|)
    && (forall i :: 0 <= i < |items| ==> Get(t, h1, h2, items[i].key) == Some(Filled(items[i].value)))
    && (forall i, j :: 0 <= i < j < |items| ==>
          SlotFor(t.seeds, |t.entries|, h1, h2, items[i].key) != SlotFor(t.seeds, |t.entries|, h1, h2, items[j].key))
  }

  /** A complete placement becomes a table that serves every item. */
  method Fill<K(!new), V>(items: seq<Item<K, V>>, h1: (K, nat) -> nat, h2: (K, nat, nat) -> nat,
                          seeds: seq<nat>, ghost order: seq<nat>) returns (r: Result<Table<V>, BuildError>)
    requires InRange(h1, h2) && |items| > 0
    requires var p := ProblemOf(items, h1, h2);
             IsPermutation(order, |p.buckets|) && InBounds(p, order, seeds) && Greedy(p, order, seeds, |order|)
    ensures r.Ok? && r.value.seeds == seeds && Serves(r.value, items, h1, h2) && !HasDuplicate(items)
  {
    forall i, j | 0 <= i < j < |items|
      ensures SlotFor(seeds, |items| + |seeds|, h1, h2, items[i].key) !=
              SlotFor(seeds, |items| + |seeds|, h1, h2, items[j].key)
    {
      SlotsDistinct(items, h1, h2, order, seeds, i, j);
    }
    var entries := FillEntries(items, h1, h2, seeds);
    r := Ok(Table(entries[..], seeds, |items|));
  }

  /**
    `build`.  A table it returns serves every item; it gives up exactly when, placing buckets
    largest first and each with its first fitting seed, it meets a bucket that no seed fits.
    `order` is the bucket order it used.
  */
  method Build<K(0, !new), V>(items: seq<Item<K, V>>, h1: (K, nat) -> nat, h2: (K, nat, nat) -> nat)
    returns (r: Result<Table<V>, BuildError>, ghost order: seq<nat>)
    requires InRange(h1, h2)
    ensures r.Ok? ==> Serves(r.value, items, h1, h2)
    ensures HasDuplicate(items) ==> r == Err(CHDFailed)
    ensures |items| > 0 ==>
              var p := ProblemOf(items, h1, h2);
              && IsOrder(p, order)
              && (r.Ok? ==> InBounds(p, order, r.value.seeds) && Greedy(p, order, r.value.seeds, |order|))
              && (r.Err? <==> exists seeds, k: nat :: StuckAt(p, order, seeds, k))
  {
    if |items| == 0 { return Ok(Table([], [], 0)), []; }
    var m := NumBuckets(|items|);
    ghost var p := ProblemOf(items, h1, h2);
    var counts := CountBuckets(items, h1, h2, m);
    var sorted := OrderBuckets(counts);
    order := sorted[..];
    assert IsOrder(p, order);
    var seeds, failed := PlaceBuckets(items, h1, h2, counts[..], sorted[..], p);
    PermutationLength(order, m);
    if failed.Some? {
      assert StuckAt(p, order, seeds[..], failed.value);
      r := Err(CHDFailed);
    } else {
      r := Fill(items, h1, h2, seeds[..], order);
      forall seeds', k: nat ensures !StuckAt(p, order, seeds', k) {
        CompleteExcludesStuck(p, order, seeds[..], seeds', k);
      }
    }
  }
}
