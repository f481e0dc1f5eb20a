/**
  The compile-time perfect hash of the routing tables: `generate` looks for a seed under which
  all keys fall into different buckets and falls back to a plain list of the keys.

  A bucket is an `i32` holding the bits of a `u32` key; the model keeps the bits, so the empty
  marker -1 is the key 0xFFFFFFFF.  The hash is any function of key and seed.
*/
module SeedSearchPhf {
  import opened Outcomes

  const EMPTY: nat := 0xFFFF_FFFF
  const BUCKETS: nat := 256

  datatype Phf = Phf(seed: nat, bucketCount: nat, buckets: seq<nat>)

  /** Indexing past the 256 buckets stops the compilation. */
  datatype GenerateError = IndexOutOfBounds

  function BucketCount(n: nat): nat {
    if n == 0 then 1 else if n <= 5 then n * 4 else if n <= 10 then n * 3 else n * 2
  }

  /** How full the table is (half, a third, or a quarter), and how many seeds are tried. */
  lemma LoadFactor(n: nat)
    ensures n <= 10 ==> SeedLimit(n) == 10000
    ensures n > 10 ==> SeedLimit(n) == 1000
    ensures 10 < n ==> 2 * n == BucketCount(n)
    ensures 5 < n <= 10 ==> 3 * n == BucketCount(n)
    ensures 0 < n <= 5 ==> 4 * n == BucketCount(n)
    ensures n == 0 ==> BucketCount(n) == 1
  {
  }

  function SeedLimit(n: nat): nat {
    if n <= 10 then 10000 else 1000
  }

  // ----- Lookup

  /** The first bucket from `i` on that holds the key. */
  function Scan(buckets: seq<nat>, key: nat, i: nat): (r: Option<nat>)
    requires i <= |buckets|
    ensures r.Some? ==> i <= r.value < |buckets| && buckets[r.value] == key && key !in buckets[i..r.value]
    ensures r.None? ==> key !in buckets[i..]
    decreases |buckets| - i
  {
    if i == |buckets| then None
    else if buckets[i] == key then Some(i)
    else
      assert buckets[i..] == [buckets[i]] + buckets[i + 1..];
      Scan(buckets, key, i + 1)
  }

  function Lookup(phf: Phf, hash: (nat, nat) -> nat, key: nat): Option<nat> {
    if phf.seed == 0 || phf.bucketCount == 0 then Scan(phf.buckets, key, 0)
    else
      var h := hash(key, phf.seed) % phf.bucketCount;
      if h < |phf.buckets| && phf.buckets[h] == key then Some(h) else None
  }

  /** Distinct keys never share an index. */
  lemma LookupInjective(phf: Phf, hash: (nat, nat) -> nat, key: nat, key': nat)
    requires Lookup(phf, hash, key).Some? && Lookup(phf, hash, key) == Lookup(phf, hash, key')
    ensures key == key'
  {
  }

  // ----- When a seed works

  function Home(hash: (nat, nat) -> nat, key: nat, seed: nat, m: nat): nat
    requires m > 0
  {
    hash(key, seed) % m
  }

  /** No earlier key occupies the home of key `i`; the empty marker never occupies one. */
  ghost predicate Free(keys: seq<nat>, hash: (nat, nat) -> nat, seed: nat, m: nat, i: nat)
    requires m > 0 && i < |keys|
  {
    forall j :: 0 <= j < i && keys[j] != EMPTY ==> Home(hash, keys[j], seed, m) != Home(hash, keys[i], seed, m)
  }

  ghost predicate Works(keys: seq<nat>, hash: (nat, nat) -> nat, seed: nat, m: nat)
    requires m > 0
  {
    forall i :: 0 <= i < |keys| ==> Free(keys, hash, seed, m, i)
  }

  /** Before any collision, some key's home is none of the 256 buckets. */
  ghost predicate Leaves(keys: seq<nat>, hash: (nat, nat) -> nat, seed: nat, m: nat)
    requires m > 0
  {
    exists i :: && 0 <= i < |keys| && Home(hash, keys[i], seed, m) >= BUCKETS
                && forall k :: 0 <= k < i ==> Free(keys, hash, seed, m, k)
  }

  /** Some key collides before any leaves the buckets. */
  ghost predicate Collides(keys: seq<nat>, hash: (nat, nat) -> nat, seed: nat, m: nat)
    requires m > 0
  {
    !Leaves(keys, hash, seed, m) && !Works(keys, hash, seed, m)
  }

  /** The first seed that does not merely collide leaves the buckets. */
  ghost predicate FirstLeaves(keys: seq<nat>, hash: (nat, nat) -> nat, seed: nat, m: nat)
    requires m > 0
  {
    Leaves(keys, hash, seed, m) && forall s :: 0 < s < seed ==> Collides(keys, hash, s, m)
  }

  /** The buckets hold exactly the first `n` keys, each at home. */
  ghost predicate Holds(buckets: seq<nat>, keys: seq<nat>, n: nat, hash: (nat, nat) -> nat, seed: nat, m: nat)
    requires m > 0 && n <= |keys|
  {
    && (forall j :: 0 <= j < n && keys[j] != EMPTY ==>
          Home(hash, keys[j], seed, m) < |buckets| && buckets[Home(hash, keys[j], seed, m)] == keys[j])
    && (forall s :: 0 <= s < |buckets| && buckets[s] != EMPTY ==>
          exists j :: 0 <= j < n && keys[j] == buckets[s] && Home(hash, keys[j], seed, m) == s)
  }

  /** Storing key `i` in its free home. */
  lemma HoldsStep(buckets: seq<nat>, keys: seq<nat>, i: nat, hash: (nat, nat) -> nat, seed: nat, m: nat)
    requires m > 0 && i < |keys| && Holds(buckets, keys, i, hash, seed, m)
    requires Home(hash, keys[i], seed, m) < |buckets| && buckets[Home(hash, keys[i], seed, m)] == EMPTY
    ensures Holds(buckets[Home(hash, keys[i], seed, m) := keys[i]], keys, i + 1, hash, seed, m)
  {
  }

  datatype Trial = Placed(buckets: seq<nat>) | Collision | OutOfBounds

  /** One seed: the inner loop of `generate`. */
  method TrySeed(keys: seq<nat>, hash: (nat, nat) -> nat, seed: nat, m: nat) returns (t: Trial)
    requires m > 0
    ensures t.OutOfBounds? <==> Leaves(keys, hash, seed, m)
    ensures t.Placed? ==> Works(keys, hash, seed, m) && |t.buckets| == BUCKETS
                          && Holds(t.buckets, keys, |keys|, hash, seed, m)
    ensures t.Collision? ==> Collides(keys, hash, seed, m)
    ensures t.OutOfBounds? ==> m > BUCKETS
  {
    var buckets := new nat[BUCKETS](_ => EMPTY);
    var i := 0;
    while i < |keys|
      invariant 0 <= i <= |keys|
      invariant forall k :: 0 <= k < i ==> Free(keys, hash, seed, m, k) && Home(hash, keys[k], seed, m) < BUCKETS
      invariant Holds(buckets[..], keys, i, hash, seed, m)
    {
      var h := Home(hash, keys[i], seed, m);
      if h >= BUCKETS { return OutOfBounds; }
      if buckets[h] != EMPTY {
        assert buckets[..][h] != EMPTY;
        assert !Free(keys, hash, seed, m, i);
        return Collision;
      }
      assert forall j :: 0 <= j < i && keys[j] != EMPTY ==> buckets[..][Home(hash, keys[j], seed, m)] == keys[j];
      assert Free(keys, hash, seed, m, i);
      ghost var was := buckets[..];
      HoldsStep(was, keys, i, hash, seed, m);
      buckets[h] := keys[i];
      assert buckets[..] == was[h := keys[i]];
      i := i + 1;
    }
    return Placed(buckets[..]);
  }

  /** The plain list of the keys that fit, without a seed. */
  function Fallback(keys: seq<nat>): Phf {
    Phf(0, BucketCount(|keys|), seq(BUCKETS, (i: nat) => if i < |keys| then keys[i] else EMPTY))
  }

  /** The keys the plain list has room for. */
  function Front(keys: seq<nat>): seq<nat> {
    if |keys| <= BUCKETS then keys else keys[..BUCKETS]
  }

  /** Exactly these keys are found, the empty marker aside. */
  ghost predicate Finds(phf: Phf, hash: (nat, nat) -> nat, keys: seq<nat>) {
    forall k: nat :: k != EMPTY ==> (Lookup(phf, hash, k).Some? <==> k in keys)
  }

  /** Exactly these keys are found, the empty marker included. */
  ghost predicate FindsAll(phf: Phf, hash: (nat, nat) -> nat, keys: seq<nat>) {
    forall k: nat :: Lookup(phf, hash, k).Some? <==> k in keys
  }

  /** No key has the marker's home, or, in the plain list, a place is left over or lists the marker. */
  ghost predicate MarkerFree(keys: seq<nat>, hash: (nat, nat) -> nat, seed: nat) {
    if seed == 0 then |keys| < BUCKETS || EMPTY in Front(keys)
    else
      var m := BucketCount(|keys|);
      && Home(hash, EMPTY, seed, m) < BUCKETS
      && forall j :: 0 <= j < |keys| && keys[j] != EMPTY ==> Home(hash, keys[j], seed, m) != Home(hash, EMPTY, seed, m)
  }

  lemma HashedFinds(keys: seq<nat>, hash: (nat, nat) -> nat, seed: nat, m: nat, buckets: seq<nat>)
    requires m > 0 && seed > 0 && Holds(buckets, keys, |keys|, hash, seed, m)
    ensures Finds(Phf(seed, m, buckets), hash, keys)
  {
  }

  /** A hashed table finds the empty marker, listed or not, exactly when no key shares its home. */
  lemma MarkerFoundIffHomeFree(keys: seq<nat>, hash: (nat, nat) -> nat, seed: nat, buckets: seq<nat>)
    requires seed > 0 && |buckets| == BUCKETS && Holds(buckets, keys, |keys|, hash, seed, BucketCount(|keys|))
    ensures Lookup(Phf(seed, BucketCount(|keys|), buckets), hash, EMPTY).Some? <==> MarkerFree(keys, hash, seed)
  {
    var m := BucketCount(|keys|);
    var home := Home(hash, EMPTY, seed, m);
    if home < BUCKETS && buckets[home] != EMPTY {
      var j :| 0 <= j < |keys| && keys[j] == buckets[home] && Home(hash, keys[j], seed, m) == home;
      assert !MarkerFree(keys, hash, seed);
    }
  }

  /** The plain list finds the keys among the first 256, and the marker if a place is left over. */
  lemma FallbackFinds(keys: seq<nat>, hash: (nat, nat) -> nat, k: nat)
    ensures Lookup(Fallback(keys), hash, k).Some? <==> k in Front(keys) || (k == EMPTY && |keys| < BUCKETS)
  {
    var buckets := Fallback(keys).buckets;
    assert forall j :: 0 <= j < |Front(keys)| ==> buckets[0..][j] == Front(keys)[j];
    if |keys| < BUCKETS { assert buckets[0..][|keys|] == EMPTY; }
  }

  /**
    Lookups find exactly the keys that have room; the empty marker is found exactly when it is free; so,
    with room for all keys, the table is right about every key exactly when that agrees with the
    marker being listed.
  */
  ghost predicate AnswersExactly(phf: Phf, keys: seq<nat>, hash: (nat, nat) -> nat) {
    && Finds(phf, hash, if phf.seed == 0 then Front(keys) else keys)
    && (Lookup(phf, hash, EMPTY).Some? <==> MarkerFree(keys, hash, phf.seed))
    && (phf.seed != 0 || |keys| <= BUCKETS ==>
          (FindsAll(phf, hash, keys) <==> (EMPTY in keys <==> MarkerFree(keys, hash, phf.seed))))
  }

  lemma HashedAnswers(keys: seq<nat>, hash: (nat, nat) -> nat, seed: nat, buckets: seq<nat>)
    requires seed > 0 && |buckets| == BUCKETS && Holds(buckets, keys, |keys|, hash, seed, BucketCount(|keys|))
    ensures AnswersExactly(Phf(seed, BucketCount(|keys|), buckets), keys, hash)
  {
    HashedFinds(keys, hash, seed, BucketCount(|keys|), buckets);
    MarkerFoundIffHomeFree(keys, hash, seed, buckets);
  }

  lemma FallbackAnswers(keys: seq<nat>, hash: (nat, nat) -> nat)
    ensures AnswersExactly(Fallback(keys), keys, hash)
  {
    forall k: nat
      ensures Lookup(Fallback(keys), hash, k).Some? <==> k in Front(keys) || (k == EMPTY && |keys| < BUCKETS)
    {
      FallbackFinds(keys, hash, k);
    }
  }

  ghost predicate HasDuplicate(keys: seq<nat>) {
    exists i, j :: 0 <= i < j < |keys| && keys[i] == keys[j] != EMPTY
  }

  lemma DuplicatesNeverWork(keys: seq<nat>, hash: (nat, nat) -> nat, seed: nat, m: nat)
    requires m > 0 && HasDuplicate(keys)
    ensures !Works(keys, hash, seed, m)
  {
    var i, j :| 0 <= i < j < |keys| && keys[i] == keys[j] != EMPTY;
    assert !Free(keys, hash, seed, m, j);
  }

  /** Once a seed places all keys, no later one counts. */
  lemma NoneLeaves(keys: seq<nat>, hash: (nat, nat) -> nat, seed: nat)
    requires seed > 0 && Works(keys, hash, seed, BucketCount(|keys|)) && !Leaves(keys, hash, seed, BucketCount(|keys|))
    requires forall s :: 0 < s < seed ==> Collides(keys, hash, s, BucketCount(|keys|))
    ensures forall s :: s > 0 ==> !FirstLeaves(keys, hash, s, BucketCount(|keys|))
  {
    forall s | s > 0 ensures !FirstLeaves(keys, hash, s, BucketCount(|keys|)) {
      if s < seed { assert Collides(keys, hash, s, BucketCount(|keys|)); }
      if s > seed { assert !Collides(keys, hash, seed, BucketCount(|keys|)); }
    }
  }

  /** Seeds that collide neither work nor leave the buckets. */
  lemma CollidingNever(keys: seq<nat>, hash: (nat, nat) -> nat, m: nat, limit: nat)
    requires m > 0 && forall s :: 0 < s < limit ==> Collides(keys, hash, s, m)
    ensures forall s :: 0 < s < limit ==> !Works(keys, hash, s, m)
    ensures forall s :: 0 < s < limit ==> !FirstLeaves(keys, hash, s, m)
  {
    forall s | 0 < s < limit ensures !Works(keys, hash, s, m) && !FirstLeaves(keys, hash, s, m) {
      assert Collides(keys, hash, s, m);
    }
  }

  /** The seed loop of `generate`: the first seed, if any, that does not merely collide. */
  method SearchSeeds(keys: seq<nat>, hash: (nat, nat) -> nat, m: nat) returns (t: Trial, seed: nat)
    requires m > 0
    ensures 1 <= seed <= SeedLimit(|keys|) && (seed == SeedLimit(|keys|) <==> t.Collision?)
    ensures forall s :: 0 < s < seed ==> Collides(keys, hash, s, m)
    ensures t.OutOfBounds? ==> Leaves(keys, hash, seed, m)
    ensures t.Placed? ==> !Leaves(keys, hash, seed, m) && Works(keys, hash, seed, m) && |t.buckets| == BUCKETS
                          && Holds(t.buckets, keys, |keys|, hash, seed, m)
  {
    seed := 1;
    while seed < SeedLimit(|keys|)
      invariant 1 <= seed <= SeedLimit(|keys|)
      invariant forall s :: 0 < s < seed ==> Collides(keys, hash, s, m)
    {
      t := TrySeed(keys, hash, seed, m);
      if !t.Collision? { return t, seed; }
      seed := seed + 1;
    }
    return Collision, seed;
  }

  /**
    `generate`.  The result has the first seed under which all keys have homes of their own, or
    lists the keys when no seed below the limit does.  Lookups find exactly the keys that have
    room; the empty marker is found by a rule of its own.
  */
  method Generate(keys: seq<nat>, hash: (nat, nat) -> nat) returns (r: Result<Phf, GenerateError>)
    ensures |keys| <= 128 ==> r.Ok?
    ensures r.Err? <==> exists s :: 0 < s < SeedLimit(|keys|) && FirstLeaves(keys, hash, s, BucketCount(|keys|))
    ensures r.Ok? ==> AnswersExactly(r.value, keys, hash)
    ensures r.Ok? ==> r.value.bucketCount == BucketCount(|keys|)
    ensures r.Ok? && r.value.seed != 0 ==>
              && r.value.seed < SeedLimit(|keys|) && Works(keys, hash, r.value.seed, BucketCount(|keys|))
              && forall s :: 0 < s < r.value.seed ==> !Works(keys, hash, s, BucketCount(|keys|))
    ensures r.Ok? && r.value.seed == 0 ==>
              && r.value == Fallback(keys)
              && forall s :: 0 < s < SeedLimit(|keys|) ==> !Works(keys, hash, s, BucketCount(|keys|))
    ensures r.Ok? && HasDuplicate(keys) ==> r.value == Fallback(keys)
  {
    var m := BucketCount(|keys|);
    var t, seed := SearchSeeds(keys, hash, m);
    CollidingNever(keys, hash, m, seed);
    match t {
      case OutOfBounds =>
        assert FirstLeaves(keys, hash, seed, m);
        return Err(IndexOutOfBounds);
      case Placed(buckets) =>
        HashedAnswers(keys, hash, seed, buckets);
        NoneLeaves(keys, hash, seed);
        if HasDuplicate(keys) { DuplicatesNeverWork(keys, hash, seed, m); }
        return Ok(Phf(seed, m, buckets));
      case Collision =>
        FallbackAnswers(keys, hash);
        return Ok(Fallback(keys));
    }
  }
}
