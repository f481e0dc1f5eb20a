/**
  The context condenser: deduplication, a greedy token window, and truncation.

  Fingerprints are an arbitrary function of role and content, scores and timestamps are reals,
  and Python's stable `sort` is stable insertion.
*/
module Condenser {
  datatype Strategy = NoCompression | DedupOnly | WindowOnly | SummarizeOnly | Hybrid

  datatype Message = Message(role: string, content: string, timestamp: real, tokens: int, importance: real)

  datatype Input = Input(
    strategy: Strategy, messages: seq<Message>, maxTokens: int, preserveSystem: bool, minMessages: int)

  datatype Output = Output(
    messages: seq<Message>, originalTokens: int, compressedTokens: int, tokensSaved: int, ratio: real,
    strategyUsed: Strategy)

  type Fingerprint = (string, string) -> string

  /** A message built without a token count gets a quarter of its length, rounded down, but at least one. */
  function NewMessage(role: string, content: string, timestamp: real, tokens: int, importance: real): (m: Message)
    ensures tokens >= 0 ==> m.tokens > 0
    ensures tokens != 0 ==> m.tokens == tokens
    ensures tokens == 0 && |content| >= 4 ==> 4 * m.tokens <= |content| < 4 * m.tokens + 4
    ensures tokens == 0 && |content| < 4 ==> m.tokens == 1
    ensures m.role == role && m.content == content && m.timestamp == timestamp && m.importance == importance
  {
    var count := if tokens != 0 then tokens else if |content| / 4 > 1 then |content| / 4 else 1;
    Message(role, content, timestamp, count, importance)
  }

  // ----- Totals over messages

  function Total(ms: seq<Message>, f: Message -> int): int {
    if ms == [] then 0 else Total(ms[..|ms| - 1], f) + f(ms[|ms| - 1])
  }

  function TokensOf(m: Message): int {
    m.tokens
  }

  function Tokens(ms: seq<Message>): int {
    Total(ms, TokensOf)
  }

  lemma {:induction false} TotalConcat(a: seq<Message>, b: seq<Message>, f: Message -> int)
    ensures Total(a + b, f) == Total(a, f) + Total(b, f)
  {
    if b == [] {
      assert a + b == a;
    } else {
      var last := |b| - 1;
      assert (a + b)[..|a + b| - 1] == a + b[..last];
      TotalConcat(a, b[..last], f);
    }
  }

  lemma MultisetWithout(b: seq<Message>, j: nat)
    requires j < |b|
    ensures multiset(b) == multiset(b[..j] + b[j + 1..]) + multiset{b[j]}
  {
    assert b == b[..j] + [b[j]] + b[j + 1..];
  }

  lemma {:induction false} TotalWithout(b: seq<Message>, j: nat, f: Message -> int)
    requires j < |b|
    ensures Total(b, f) == Total(b[..j] + b[j + 1..], f) + f(b[j])
  {
    var last := |b| - 1;
    var rest := b[..j] + b[j + 1..];
    if j == last {
      assert rest == b[..last];
    } else {
      TotalWithout(b[..last], j, f);
      assert rest[..|rest| - 1] == b[..last][..j] + b[..last][j + 1..];
      assert rest[|rest| - 1] == b[last];
    }
  }

  lemma Cancel(a: multiset<Message>, b: multiset<Message>, x: Message)
    ensures a + multiset{x} <= b + multiset{x} ==> a <= b
    ensures a + multiset{x} == b + multiset{x} ==> a == b
  {
    if a + multiset{x} <= b + multiset{x} {
      forall k | k in a ensures a[k] <= b[k] {
        assert (a + multiset{x})[k] <= (b + multiset{x})[k];
      }
    }
    if a + multiset{x} == b + multiset{x} {
      assert (a + multiset{x}) - multiset{x} == a && (b + multiset{x}) - multiset{x} == b;
    }
  }

  /** Leaving messages out never raises a total of non-negative quantities. */
  lemma {:induction false} TotalOfPart(a: seq<Message>, b: seq<Message>, f: Message -> int)
    requires multiset(a) <= multiset(b) && forall m :: m in b ==> f(m) >= 0
    ensures Total(a, f) <= Total(b, f)
    decreases |b|
  {
    if a == [] {
      TotalNonNegative(b, f);
    } else {
      var last := |a| - 1;
      assert a == a[..last] + [a[last]];
      assert multiset(a) == multiset(a[..last]) + multiset{a[last]};
      assert a[last] in multiset(b);
      var j :| 0 <= j < |b| && b[j] == a[last];
      TotalWithout(b, j, f);
      MultisetWithout(b, j);
      Cancel(multiset(a[..last]), multiset(b[..j] + b[j + 1..]), a[last]);
      TotalOfPart(a[..last], b[..j] + b[j + 1..], f);
    }
  }

  /** A total does not depend on the order. */
  lemma {:induction false} TotalOfPermutation(a: seq<Message>, b: seq<Message>, f: Message -> int)
    requires multiset(a) == multiset(b)
    ensures Total(a, f) == Total(b, f)
    decreases |b|
  {
    if a == [] {
      assert |multiset(b)| == 0;
    } else {
      var last := |a| - 1;
      assert a == a[..last] + [a[last]];
      assert multiset(a) == multiset(a[..last]) + multiset{a[last]};
      assert a[last] in multiset(b);
      var j :| 0 <= j < |b| && b[j] == a[last];
      TotalWithout(b, j, f);
      MultisetWithout(b, j);
      Cancel(multiset(a[..last]), multiset(b[..j] + b[j + 1..]), a[last]);
      TotalOfPermutation(a[..last], b[..j] + b[j + 1..], f);
    }
  }

  lemma {:induction false} TotalNonNegative(ms: seq<Message>, f: Message -> int)
    requires forall m :: m in ms ==> f(m) >= 0
    ensures Total(ms, f) >= 0
  {
    if ms != [] { TotalNonNegative(ms[..|ms| - 1], f); }
  }

  /** How often a message occurs. */
  function Count(ms: seq<Message>, x: Message): nat {
    if ms == [] then 0 else Count(ms[..|ms| - 1], x) + if ms[|ms| - 1] == x then 1 else 0
  }

  lemma CountSnoc(ms: seq<Message>, m: Message, x: Message)
    ensures Count(ms + [m], x) == Count(ms, x) + if m == x then 1 else 0
  {
    assert (ms + [m])[..|ms|] == ms;
  }

  lemma {:induction false} CountIsMultiplicity(ms: seq<Message>, x: Message)
    ensures Count(ms, x) == multiset(ms)[x]
  {
    if ms != [] {
      var front, m := ms[..|ms| - 1], ms[|ms| - 1];
      CountIsMultiplicity(front, x);
      assert ms == front + [m];
      assert multiset(front + [m])[x] == multiset(front)[x] + multiset([m])[x];
    }
  }

  /** Two parts make up a whole if every message occurs in them as often. */
  lemma PartsByCount(a: seq<Message>, b: seq<Message>, ms: seq<Message>)
    requires forall x :: Count(a, x) + Count(b, x) == Count(ms, x)
    ensures multiset(a) + multiset(b) == multiset(ms)
  {
    forall x ensures (multiset(a) + multiset(b))[x] == multiset(ms)[x] {
      assert Count(a, x) + Count(b, x) == Count(ms, x);
      CountIsMultiplicity(a, x);
      CountIsMultiplicity(b, x);
      CountIsMultiplicity(ms, x);
    }
  }

  // ----- Stable sorting

  /** Inserts after every element whose key is not larger. */
  function Insert(sorted: seq<Message>, m: Message, key: Message -> real): seq<Message> {
    if sorted == [] then [m]
    else
      var last := |sorted| - 1;
      if key(m) < key(sorted[last]) then Insert(sorted[..last], m, key) + [sorted[last]] else sorted + [m]
  }

  function SortBy(ms: seq<Message>, key: Message -> real): seq<Message> {
    if ms == [] then [] else Insert(SortBy(ms[..|ms| - 1], key), ms[|ms| - 1], key)
  }

  ghost predicate Ascending(ms: seq<Message>, key: Message -> real) {
    forall i, j :: 0 <= i < j < |ms| ==> key(ms[i]) <= key(ms[j])
  }

  /** The messages with one key, in order. */
  function WithKey(ms: seq<Message>, key: Message -> real, v: real): seq<Message> {
    if ms == [] then []
    else
      var last := |ms| - 1;
      WithKey(ms[..last], key, v) + (if key(ms[last]) == v then [ms[last]] else [])
  }

  lemma {:induction false} InsertAdds(sorted: seq<Message>, m: Message, key: Message -> real)
    ensures multiset(Insert(sorted, m, key)) == multiset(sorted) + multiset{m}
  {
    if sorted != [] {
      var last := |sorted| - 1;
      assert sorted == sorted[..last] + [sorted[last]];
      if key(m) < key(sorted[last]) { InsertAdds(sorted[..last], m, key); }
    }
  }

  lemma {:induction false} InsertBound(sorted: seq<Message>, m: Message, key: Message -> real, bound: real)
    requires key(m) <= bound && forall i :: 0 <= i < |sorted| ==> key(sorted[i]) <= bound
    ensures forall i :: 0 <= i < |Insert(sorted, m, key)| ==> key(Insert(sorted, m, key)[i]) <= bound
  {
    if sorted != [] { InsertBound(sorted[..|sorted| - 1], m, key, bound); }
  }

  lemma {:induction false} InsertSorts(sorted: seq<Message>, m: Message, key: Message -> real)
    requires Ascending(sorted, key)
    ensures Ascending(Insert(sorted, m, key), key)
  {
    if sorted != [] {
      var last := |sorted| - 1;
      InsertSorts(sorted[..last], m, key);
      if key(m) < key(sorted[last]) { InsertBound(sorted[..last], m, key, key(sorted[last])); }
    }
  }

  lemma WithKeySnoc(ms: seq<Message>, m: Message, key: Message -> real, v: real)
    ensures WithKey(ms + [m], key, v) == WithKey(ms, key, v) + if key(m) == v then [m] else []
  {
    assert (ms + [m])[..|ms|] == ms;
  }

  lemma {:induction false} InsertIsStable(sorted: seq<Message>, m: Message, key: Message -> real, v: real)
    requires Ascending(sorted, key)
    ensures WithKey(Insert(sorted, m, key), key, v) == WithKey(sorted, key, v) + if key(m) == v then [m] else []
  {
    if sorted != [] {
      var front, top := sorted[..|sorted| - 1], sorted[|sorted| - 1];
      if key(m) < key(top) {
        InsertIsStable(front, m, key, v);
        WithKeySnoc(Insert(front, m, key), top, key, v);
      } else {
        WithKeySnoc(sorted, m, key, v);
      }
    }
  }

  /** The sort is a permutation, ascending, and keeps the order of equal keys. */
  lemma {:induction false} SortBySorts(ms: seq<Message>, key: Message -> real)
    ensures multiset(SortBy(ms, key)) == multiset(ms)
    ensures Ascending(SortBy(ms, key), key)
    ensures forall v :: WithKey(SortBy(ms, key), key, v) == WithKey(ms, key, v)
  {
    if ms != [] {
      var last := |ms| - 1;
      SortBySorts(ms[..last], key);
      assert ms == ms[..last] + [ms[last]];
      var sorted := SortBy(ms[..last], key);
      InsertSorts(sorted, ms[last], key);
      InsertAdds(sorted, ms[last], key);
      forall v ensures WithKey(SortBy(ms, key), key, v) == WithKey(ms, key, v) {
        InsertIsStable(sorted, ms[last], key, v);
      }
    }
  }

  // ----- System messages

  predicate IsSystem(m: Message) {
    m.role == "system"
  }

  function SystemOf(ms: seq<Message>): seq<Message> {
    if ms == [] then []
    else
      var last := |ms| - 1;
      SystemOf(ms[..last]) + (if IsSystem(ms[last]) then [ms[last]] else [])
  }

  function OthersOf(ms: seq<Message>): seq<Message> {
    if ms == [] then []
    else
      var last := |ms| - 1;
      OthersOf(ms[..last]) + (if IsSystem(ms[last]) then [] else [ms[last]])
  }

  lemma SystemSnoc(ms: seq<Message>)
    requires ms != []
    ensures var front, m := ms[..|ms| - 1], ms[|ms| - 1];
            && SystemOf(ms) == (if IsSystem(m) then SystemOf(front) + [m] else SystemOf(front))
            && OthersOf(ms) == (if IsSystem(m) then OthersOf(front) else OthersOf(front) + [m])
  {
  }

  lemma {:induction false} SystemAndOthersCount(ms: seq<Message>, x: Message)
    ensures Count(SystemOf(ms), x) + Count(OthersOf(ms), x) == Count(ms, x)
  {
    if ms != [] {
      var front, m := ms[..|ms| - 1], ms[|ms| - 1];
      SystemAndOthersCount(front, x);
      SystemSnoc(ms);
      CountSnoc(if IsSystem(m) then SystemOf(front) else OthersOf(front), m, x);
    }
  }

  lemma SystemAndOthers(ms: seq<Message>)
    ensures multiset(SystemOf(ms)) + multiset(OthersOf(ms)) == multiset(ms)
  {
    forall x ensures Count(SystemOf(ms), x) + Count(OthersOf(ms), x) == Count(ms, x) { SystemAndOthersCount(ms, x); }
    PartsByCount(SystemOf(ms), OthersOf(ms), ms);
  }

  lemma {:induction false} SystemIsSystem(ms: seq<Message>)
    ensures forall m :: m in SystemOf(ms) ==> IsSystem(m)
    ensures forall m :: m in OthersOf(ms) ==> !IsSystem(m)
  {
    if ms != [] { SystemIsSystem(ms[..|ms| - 1]); }
  }

  lemma {:induction false} SystemOfConcat(a: seq<Message>, b: seq<Message>)
    ensures SystemOf(a + b) == SystemOf(a) + SystemOf(b)
  {
    if b == [] {
      assert a + b == a;
    } else {
      var last := |b| - 1;
      assert (a + b)[..|a + b| - 1] == a + b[..last];
      SystemOfConcat(a, b[..last]);
    }
  }

  lemma {:induction false} SystemOfUniform(ms: seq<Message>)
    ensures (forall m :: m in ms ==> IsSystem(m)) ==> SystemOf(ms) == ms
    ensures (forall m :: m in ms ==> !IsSystem(m)) ==> SystemOf(ms) == []
  {
    if ms != [] {
      SystemOfUniform(ms[..|ms| - 1]);
      assert ms == ms[..|ms| - 1] + [ms[|ms| - 1]];
    }
  }

  // ----- Deduplication

  predicate Exempt(m: Message, preserve: bool) {
    preserve && IsSystem(m)
  }

  function Print(m: Message, fp: Fingerprint): string {
    fp(m.role, m.content)
  }

  /** Message `i` repeats the fingerprint of an earlier one. */
  predicate Repeats(ms: seq<Message>, fp: Fingerprint, preserve: bool, i: nat)
    requires i < |ms|
  {
    && !Exempt(ms[i], preserve)
    && exists j :: 0 <= j < i && !Exempt(ms[j], preserve) && Print(ms[j], fp) == Print(ms[i], fp)
  }

  /** The messages that repeat no earlier one. */
  function Deduped(ms: seq<Message>, fp: Fingerprint, preserve: bool): seq<Message> {
    if ms == [] then []
    else
      var last := |ms| - 1;
      Deduped(ms[..last], fp, preserve) + (if Repeats(ms, fp, preserve, last) then [] else [ms[last]])
  }

  method Dedup(ms: seq<Message>, fp: Fingerprint, preserve: bool) returns (result: seq<Message>)
    ensures result == Deduped(ms, fp, preserve)
  {
    var seen: set<string> := {};
    result := [];
    var i := 0;
    while i < |ms|
      invariant 0 <= i <= |ms| && result == Deduped(ms[..i], fp, preserve)
      invariant forall f :: f in seen <==> exists j :: 0 <= j < i && !Exempt(ms[j], preserve) && Print(ms[j], fp) == f
    {
      var m := ms[i];
      assert ms[..i + 1][..i] == ms[..i];
      assert Repeats(ms[..i + 1], fp, preserve, i) <==> !Exempt(m, preserve) && Print(m, fp) in seen;
      if Exempt(m, preserve) {
        result := result + [m];
      } else if Print(m, fp) !in seen {
        seen := seen + {Print(m, fp)};
        result := result + [m];
      }
      i := i + 1;
    }
    assert ms[..i] == ms;
  }

  lemma {:induction false} DedupedCount(ms: seq<Message>, fp: Fingerprint, preserve: bool, x: Message)
    ensures Count(Deduped(ms, fp, preserve), x) <= Count(ms, x)
  {
    if ms != [] {
      var front := ms[..|ms| - 1];
      DedupedCount(front, fp, preserve, x);
      CountSnoc(Deduped(front, fp, preserve), ms[|ms| - 1], x);
      assert Deduped(front, fp, preserve) + [] == Deduped(front, fp, preserve);
    }
  }

  lemma DedupedIsPart(ms: seq<Message>, fp: Fingerprint, preserve: bool)
    ensures multiset(Deduped(ms, fp, preserve)) <= multiset(ms)
  {
    forall x ensures multiset(Deduped(ms, fp, preserve))[x] <= multiset(ms)[x] {
      DedupedCount(ms, fp, preserve, x);
      CountIsMultiplicity(Deduped(ms, fp, preserve), x);
      CountIsMultiplicity(ms, x);
    }
  }

  lemma {:induction false} DedupedKeepsSystem(ms: seq<Message>, fp: Fingerprint)
    ensures SystemOf(Deduped(ms, fp, true)) == SystemOf(ms)
  {
    if ms != [] {
      var last := |ms| - 1;
      DedupedKeepsSystem(ms[..last], fp);
      var rest := Deduped(ms[..last], fp, true);
      assert (rest + [ms[last]])[..|rest|] == rest && rest + [] == rest;
    }
  }

  /** 1 for a deduplicated message with the given fingerprint. */
  function Marks(m: Message, fp: Fingerprint, preserve: bool, f: string): int {
    if !Exempt(m, preserve) && Print(m, fp) == f then 1 else 0
  }

  function Occurrences(ms: seq<Message>, fp: Fingerprint, preserve: bool, f: string): int {
    Total(ms, (m: Message) => Marks(m, fp, preserve, f))
  }

  ghost predicate Occurs(ms: seq<Message>, fp: Fingerprint, preserve: bool, f: string) {
    exists j :: 0 <= j < |ms| && Marks(ms[j], fp, preserve, f) == 1
  }

  lemma OccursSnoc(ms: seq<Message>, m: Message, fp: Fingerprint, preserve: bool, f: string)
    ensures Occurs(ms + [m], fp, preserve, f) <==> Occurs(ms, fp, preserve, f) || Marks(m, fp, preserve, f) == 1
  {
    var all := ms + [m];
    assert all[|ms|] == m;
    if Occurs(ms, fp, preserve, f) {
      var j :| 0 <= j < |ms| && Marks(ms[j], fp, preserve, f) == 1;
      assert Marks(all[j], fp, preserve, f) == 1;
    }
  }

  lemma OccurrencesSnoc(ms: seq<Message>, m: Message, fp: Fingerprint, preserve: bool, f: string)
    ensures Occurrences(ms + [m], fp, preserve, f) == Occurrences(ms, fp, preserve, f) + Marks(m, fp, preserve, f)
  {
  }

  /** Every fingerprint that occurs is kept exactly once. */
  lemma {:induction false} DedupedOccurrences(ms: seq<Message>, fp: Fingerprint, preserve: bool, f: string)
    ensures Occurrences(Deduped(ms, fp, preserve), fp, preserve, f) == if Occurs(ms, fp, preserve, f) then 1 else 0
  {
    if ms != [] {
      var last := |ms| - 1;
      DedupedOccurrences(ms[..last], fp, preserve, f);
      var rest := Deduped(ms[..last], fp, preserve);
      assert ms == ms[..last] + [ms[last]];
      OccursSnoc(ms[..last], ms[last], fp, preserve, f);
      RepeatsIffOccurs(ms, fp, preserve);
      if Repeats(ms, fp, preserve, last) {
        assert rest + [] == rest;
      } else {
        OccurrencesSnoc(rest, ms[last], fp, preserve, f);
      }
    }
  }

  lemma RepeatsIffOccurs(ms: seq<Message>, fp: Fingerprint, preserve: bool)
    requires ms != []
    ensures var last := |ms| - 1;
            Repeats(ms, fp, preserve, last) <==>
            !Exempt(ms[last], preserve) && Occurs(ms[..last], fp, preserve, Print(ms[last], fp))
  {
  }

  /** What was kept of the first messages stays, whatever follows: of equal messages the first is kept. */
  lemma {:induction false} DedupedPrefix(ms: seq<Message>, fp: Fingerprint, preserve: bool, i: nat)
    requires i <= |ms|
    ensures Deduped(ms[..i], fp, preserve) <= Deduped(ms, fp, preserve)
  {
    if i == |ms| {
      assert ms[..i] == ms;
    } else {
      var front := ms[..|ms| - 1];
      assert front[..i] == ms[..i];
      DedupedPrefix(front, fp, preserve, i);
    }
  }

  /** Nothing to remove when no fingerprint occurs twice. */
  lemma {:induction false} DedupedNoRepeats(ms: seq<Message>, fp: Fingerprint, preserve: bool)
    requires forall f :: Occurrences(ms, fp, preserve, f) <= 1
    ensures Deduped(ms, fp, preserve) == ms
  {
    if ms != [] {
      var last := |ms| - 1;
      var f := Print(ms[last], fp);
      forall g ensures Occurrences(ms[..last], fp, preserve, g) <= 1 {
        assert Occurrences(ms, fp, preserve, g) <= 1;
      }
      DedupedNoRepeats(ms[..last], fp, preserve);
      assert Occurrences(ms, fp, preserve, f) <= 1;
      if Repeats(ms, fp, preserve, last) {
        var j :| 0 <= j < last && !Exempt(ms[j], preserve) && Print(ms[j], fp) == f;
        OccurrenceCounts(ms[..last], fp, preserve, j);
        assert false;
      }
      assert ms == ms[..last] + [ms[last]];
    }
  }

  lemma {:induction false} OccurrenceCounts(ms: seq<Message>, fp: Fingerprint, preserve: bool, j: nat)
    requires j < |ms| && !Exempt(ms[j], preserve)
    ensures Occurrences(ms, fp, preserve, Print(ms[j], fp)) >= 1
  {
    var f := Print(ms[j], fp);
    TotalNonNegative(ms[..|ms| - 1], (m: Message) => Marks(m, fp, preserve, f));
    if j < |ms| - 1 { OccurrenceCounts(ms[..|ms| - 1], fp, preserve, j); }
  }

  // ----- The token window

  function Score(m: Message): real {
    m.importance * 0.6 + (m.timestamp / 1_000_000_000_000.0) * 0.4
  }

  /** Sorting by rank puts the best score first. */
  function Rank(m: Message): real {
    -Score(m)
  }

  function TimeOf(m: Message): real {
    m.timestamp
  }

  /** The state of the greedy loop; `passed` are the messages it did not keep. */
  datatype Window = Window(kept: seq<Message>, passed: seq<Message>, used: int, stopped: bool)

  /** Enough messages, and nine tenths of the budget used. */
  predicate Enough(count: nat, used: int, budget: int, min: int) {
    count >= min && 10 * used >= 9 * budget
  }

  /** The greedy loop over `scored`, at most `n` messages. */
  function Fill(scored: seq<Message>, n: nat, budget: int, min: int): Window {
    if scored == [] then Window([], [], 0, false)
    else
      var m := scored[|scored| - 1];
      var w := Fill(scored[..|scored| - 1], n, budget, min);
      if w.stopped then w.(passed := w.passed + [m])
      else if w.used + m.tokens <= budget && |w.kept| < n then
        Window(w.kept + [m], w.passed, w.used + m.tokens, Enough(|w.kept| + 1, w.used + m.tokens, budget, min))
      else w.(passed := w.passed + [m], stopped := Enough(|w.kept|, w.used, budget, min))
  }

  function ProtectedOf(ms: seq<Message>, preserve: bool): seq<Message> {
    if preserve then SystemOf(ms) else []
  }

  function CompetingOf(ms: seq<Message>, preserve: bool): seq<Message> {
    if preserve then OthersOf(ms) else ms
  }

  /** The competing messages, best score first. */
  function Ranked(ms: seq<Message>, preserve: bool): seq<Message> {
    SortBy(CompetingOf(ms, preserve), Rank)
  }

  function WindowOf(ms: seq<Message>, maxTokens: int, preserve: bool, min: int): Window {
    var scored := Ranked(ms, preserve);
    Fill(scored, |scored|, maxTokens - Tokens(ProtectedOf(ms, preserve)), min)
  }

  function Windowed(ms: seq<Message>, maxTokens: int, preserve: bool, min: int): seq<Message> {
    if Tokens(ms) <= maxTokens then ms
    else ProtectedOf(ms, preserve) + SortBy(WindowOf(ms, maxTokens, preserve, min).kept, TimeOf)
  }

  lemma {:induction false} FillStopped(scored: seq<Message>, n: nat, budget: int, min: int, i: nat)
    requires i <= |scored| && Fill(scored[..i], n, budget, min).stopped
    ensures Fill(scored, n, budget, min).kept == Fill(scored[..i], n, budget, min).kept
  {
    if i == |scored| {
      assert scored[..i] == scored;
    } else {
      var last := |scored| - 1;
      assert scored[..last][..i] == scored[..i];
      FillStopped(scored[..last], n, budget, min, i);
      FillStaysStopped(scored[..last], n, budget, min, i);
    }
  }

  lemma {:induction false} FillStaysStopped(scored: seq<Message>, n: nat, budget: int, min: int, i: nat)
    requires i <= |scored| && Fill(scored[..i], n, budget, min).stopped
    ensures Fill(scored, n, budget, min).stopped
  {
    if i == |scored| {
      assert scored[..i] == scored;
    } else {
      assert scored[..|scored| - 1][..i] == scored[..i];
      FillStaysStopped(scored[..|scored| - 1], n, budget, min, i);
    }
  }

  method FillWindow(scored: seq<Message>, budget: int, min: int) returns (kept: seq<Message>)
    ensures kept == Fill(scored, |scored|, budget, min).kept
  {
    kept := [];
    var used, i := 0, 0;
    while i < |scored|
      invariant 0 <= i <= |scored|
      invariant var w := Fill(scored[..i], |scored|, budget, min); kept == w.kept && used == w.used && !w.stopped
    {
      assert scored[..i + 1][..i] == scored[..i];
      if used + scored[i].tokens <= budget && |kept| < |scored| {
        kept := kept + [scored[i]];
        used := used + scored[i].tokens;
      }
      i := i + 1;
      if |kept| >= min && 10 * used >= 9 * budget {
        FillStopped(scored, |scored|, budget, min, i);
        return;
      }
    }
    assert scored[..i] == scored;
  }

  method KeepBest(ms: seq<Message>, maxTokens: int, preserve: bool, min: int) returns (kept: seq<Message>)
    ensures kept == WindowOf(ms, maxTokens, preserve, min).kept
  {
    kept := FillWindow(Ranked(ms, preserve), maxTokens - Tokens(ProtectedOf(ms, preserve)), min);
  }

  method SlidingWindow(ms: seq<Message>, maxTokens: int, preserve: bool, min: int) returns (result: seq<Message>)
    ensures result == Windowed(ms, maxTokens, preserve, min)
  {
    if Tokens(ms) <= maxTokens { return ms; }
    var kept := KeepBest(ms, maxTokens, preserve, min);
    return ProtectedOf(ms, preserve) + SortBy(kept, TimeOf);
  }

  lemma {:induction false} FillCount(scored: seq<Message>, n: nat, budget: int, min: int, x: Message)
    ensures var w := Fill(scored, n, budget, min); Count(w.kept, x) + Count(w.passed, x) == Count(scored, x)
  {
    if scored != [] {
      var front, m := scored[..|scored| - 1], scored[|scored| - 1];
      FillCount(front, n, budget, min, x);
      var w := Fill(front, n, budget, min);
      CountSnoc(w.kept, m, x);
      CountSnoc(w.passed, m, x);
    }
  }

  lemma FillParts(scored: seq<Message>, n: nat, budget: int, min: int)
    ensures var w := Fill(scored, n, budget, min); multiset(w.kept) + multiset(w.passed) == multiset(scored)
  {
    var w := Fill(scored, n, budget, min);
    forall x ensures Count(w.kept, x) + Count(w.passed, x) == Count(scored, x) {
      FillCount(scored, n, budget, min, x);
    }
    PartsByCount(w.kept, w.passed, scored);
  }

  lemma {:induction false} FillUses(scored: seq<Message>, n: nat, budget: int, min: int)
    ensures var w := Fill(scored, n, budget, min);
            && w.used == Tokens(w.kept)
            && w.used <= (if budget > 0 then budget else 0)
            && |w.kept| <= |scored|
            && (w.stopped ==> Enough(|w.kept|, w.used, budget, min))
  {
    if scored != [] {
      var last := |scored| - 1;
      FillUses(scored[..last], n, budget, min);
      var w := Fill(scored[..last], n, budget, min);
      assert (w.kept + [scored[last]])[..|w.kept|] == w.kept;
    }
  }

  /** What the greedy loop keeps and passes over make up everything, within the budget. */
  lemma FillAccounts(scored: seq<Message>, n: nat, budget: int, min: int)
    ensures var w := Fill(scored, n, budget, min);
            && multiset(w.kept) + multiset(w.passed) == multiset(scored)
            && w.used == Tokens(w.kept)
            && w.used <= (if budget > 0 then budget else 0)
            && |w.kept| <= |scored|
            && (w.stopped ==> Enough(|w.kept|, w.used, budget, min))
  {
    FillParts(scored, n, budget, min);
    FillUses(scored, n, budget, min);
  }

  /** Maximality: if the loop ran to its end, nothing it passed over fits in what is left. */
  lemma {:induction false} FillIsMaximal(scored: seq<Message>, n: nat, budget: int, min: int)
    requires |scored| <= n && forall i :: 0 <= i < |scored| ==> scored[i].tokens > 0
    ensures var w := Fill(scored, n, budget, min);
            !w.stopped ==> forall m :: m in w.passed ==> w.used + m.tokens > budget
  {
    if scored != [] {
      FillIsMaximal(scored[..|scored| - 1], n, budget, min);
      FillAccounts(scored[..|scored| - 1], n, budget, min);
    }
  }

  /**
    Stopping early never costs the minimum: the loop keeps `min` messages exactly when the same
    loop without early stopping (an unreachable minimum) would.
  */
  lemma {:induction false} FillReachesMinimum(scored: seq<Message>, n: nat, budget: int, min: int)
    ensures var w, all := Fill(scored, n, budget, min), Fill(scored, n, budget, n + 1);
            && !all.stopped && |all.kept| <= n
            && (!w.stopped ==> w.kept == all.kept && w.used == all.used)
            && |w.kept| <= |all.kept|
            && (|w.kept| >= min <==> |all.kept| >= min)
  {
    if scored != [] {
      FillReachesMinimum(scored[..|scored| - 1], n, budget, min);
      FillAccounts(scored[..|scored| - 1], n, budget, min);
    }
  }

  /** The window's limit in plain terms: without protection the token limit itself. */
  lemma WindowLimit(ms: seq<Message>, maxTokens: int, preserve: bool, min: int)
    requires maxTokens >= 0
    ensures !preserve ==> Tokens(Windowed(ms, maxTokens, preserve, min)) <= maxTokens
    ensures preserve && Tokens(SystemOf(ms)) <= maxTokens ==>
              Tokens(Windowed(ms, maxTokens, preserve, min)) <= maxTokens
    ensures preserve && Tokens(SystemOf(ms)) > maxTokens ==>
              Tokens(Windowed(ms, maxTokens, preserve, min)) <= Tokens(SystemOf(ms))
  {
    WindowWithinBudget(ms, maxTokens, preserve, min);
  }

  /** Whether the loop keeps the message of rank `i`. */
  predicate Takes(scored: seq<Message>, n: nat, budget: int, min: int, i: nat)
    requires i < |scored|
  {
    |Fill(scored[..i + 1], n, budget, min).kept| > |Fill(scored[..i], n, budget, min).kept|
  }

  lemma TakesIff(scored: seq<Message>, n: nat, budget: int, min: int, i: nat)
    requires i < |scored| <= n
    ensures var w := Fill(scored[..i], n, budget, min);
            Takes(scored, n, budget, min, i) <==> !w.stopped && w.used + scored[i].tokens <= budget
  {
    assert scored[..i + 1][..i] == scored[..i];
    FillAccounts(scored[..i], n, budget, min);
  }

  lemma {:induction false} UsedGrows(scored: seq<Message>, n: nat, budget: int, min: int, i: nat, j: nat)
    requires i <= j <= |scored| && forall k :: 0 <= k < |scored| ==> scored[k].tokens > 0
    ensures Fill(scored[..i], n, budget, min).used <= Fill(scored[..j], n, budget, min).used
    ensures Fill(scored[..i], n, budget, min).stopped ==> Fill(scored[..j], n, budget, min).stopped
    decreases j
  {
    if i < j {
      assert scored[..j][..j - 1] == scored[..j - 1];
      UsedGrows(scored, n, budget, min, i, j - 1);
    }
  }

  /** Rank decides, and size only within it: a message kept below one that was passed over is strictly smaller. */
  lemma KeptBelowPassedIsSmaller(scored: seq<Message>, n: nat, budget: int, min: int, i: nat, j: nat)
    requires i < j < |scored| <= n && forall k :: 0 <= k < |scored| ==> scored[k].tokens > 0
    requires !Takes(scored, n, budget, min, i) && Takes(scored, n, budget, min, j)
    ensures scored[j].tokens < scored[i].tokens
  {
    TakesIff(scored, n, budget, min, i);
    TakesIff(scored, n, budget, min, j);
    UsedGrows(scored, n, budget, min, i, j);
  }

  lemma ProtectedAndCompeting(ms: seq<Message>, preserve: bool)
    ensures multiset(ProtectedOf(ms, preserve)) + multiset(CompetingOf(ms, preserve)) == multiset(ms)
  {
    if preserve { SystemAndOthers(ms); }
  }

  /** The window's own account: kept and passed over are the competing messages. */
  lemma WindowAccounts(ms: seq<Message>, maxTokens: int, preserve: bool, min: int)
    ensures var w := WindowOf(ms, maxTokens, preserve, min);
            && multiset(w.kept) + multiset(w.passed) == multiset(CompetingOf(ms, preserve))
            && w.used == Tokens(w.kept)
  {
    var scored := Ranked(ms, preserve);
    SortBySorts(CompetingOf(ms, preserve), Rank);
    FillAccounts(scored, |scored|, maxTokens - Tokens(ProtectedOf(ms, preserve)), min);
  }

  /** The window adds nothing. */
  lemma WindowIsPart(ms: seq<Message>, maxTokens: int, preserve: bool, min: int)
    ensures multiset(Windowed(ms, maxTokens, preserve, min)) <= multiset(ms)
  {
    if Tokens(ms) > maxTokens {
      var kept := WindowOf(ms, maxTokens, preserve, min).kept;
      ProtectedAndCompeting(ms, preserve);
      WindowAccounts(ms, maxTokens, preserve, min);
      SortBySorts(kept, TimeOf);
    }
  }

  /** A truncated window is the protected messages and then the kept ones, by time. */
  lemma WindowIsChronological(ms: seq<Message>, maxTokens: int, preserve: bool, min: int)
    requires Tokens(ms) > maxTokens
    ensures var k := |ProtectedOf(ms, preserve)|;
            var out := Windowed(ms, maxTokens, preserve, min);
            && k <= |out| && out[..k] == ProtectedOf(ms, preserve)
            && (forall i, j :: k <= i < j < |out| ==> out[i].timestamp <= out[j].timestamp)
            && multiset(out[k..]) == multiset(WindowOf(ms, maxTokens, preserve, min).kept)
  {
    var kept := WindowOf(ms, maxTokens, preserve, min).kept;
    SortBySorts(kept, TimeOf);
    var out := Windowed(ms, maxTokens, preserve, min);
    Joined(ProtectedOf(ms, preserve), SortBy(kept, TimeOf));
    assert out == ProtectedOf(ms, preserve) + SortBy(kept, TimeOf);
  }

  lemma Joined(first: seq<Message>, sorted: seq<Message>)
    requires Ascending(sorted, TimeOf)
    ensures var k, all := |first|, first + sorted;
            && all[..k] == first && all[k..] == sorted
            && forall i, j :: k <= i < j < |all| ==> all[i].timestamp <= all[j].timestamp
  {
    var k, all := |first|, first + sorted;
    forall i, j | k <= i < j < |all| ensures all[i].timestamp <= all[j].timestamp {
      assert TimeOf(sorted[i - k]) <= TimeOf(sorted[j - k]);
    }
  }

  /** The window exceeds the token limit only by what the protected messages alone need. */
  lemma WindowWithinBudget(ms: seq<Message>, maxTokens: int, preserve: bool, min: int)
    ensures Tokens(Windowed(ms, maxTokens, preserve, min)) <=
            (if Tokens(ProtectedOf(ms, preserve)) > maxTokens then Tokens(ProtectedOf(ms, preserve)) else maxTokens)
  {
    if Tokens(ms) > maxTokens {
      var scored, system := Ranked(ms, preserve), ProtectedOf(ms, preserve);
      var w := WindowOf(ms, maxTokens, preserve, min);
      FillAccounts(scored, |scored|, maxTokens - Tokens(system), min);
      SortBySorts(w.kept, TimeOf);
      TotalOfPermutation(SortBy(w.kept, TimeOf), w.kept, TokensOf);
      TotalConcat(system, SortBy(w.kept, TimeOf), TokensOf);
    }
  }

  /**
    When the window truncates it stops for a reason: enough messages are kept and nine tenths of
    the budget is used, or no message it left out fits in the remaining budget.
  */
  lemma WindowStopsForAReason(ms: seq<Message>, maxTokens: int, preserve: bool, min: int)
    requires forall i :: 0 <= i < |ms| ==> ms[i].tokens > 0
    ensures var w := WindowOf(ms, maxTokens, preserve, min);
            var budget := maxTokens - Tokens(ProtectedOf(ms, preserve));
            || (|w.kept| >= min && 10 * Tokens(w.kept) >= 9 * budget)
            || forall m :: m in multiset(CompetingOf(ms, preserve)) - multiset(w.kept) ==>
                 Tokens(w.kept) + m.tokens > budget
  {
    var scored := Ranked(ms, preserve);
    var budget := maxTokens - Tokens(ProtectedOf(ms, preserve));
    var w := WindowOf(ms, maxTokens, preserve, min);
    RankedPositive(ms, preserve);
    FillIsMaximal(scored, |scored|, budget, min);
    FillAccounts(scored, |scored|, budget, min);
    WindowAccounts(ms, maxTokens, preserve, min);
    assert multiset(CompetingOf(ms, preserve)) - multiset(w.kept) == multiset(w.passed);
    assert forall m :: m in multiset(w.passed) ==> m in w.passed;
  }

  /** After at least one message the loop has stopped exactly if it has enough. */
  lemma {:induction false} FillStopsIff(scored: seq<Message>, n: nat, budget: int, min: int)
    requires scored != []
    ensures var w := Fill(scored, n, budget, min);
            w.stopped <==> |w.kept| >= min && 10 * w.used >= 9 * budget
  {
    if |scored| > 1 { FillStopsIff(scored[..|scored| - 1], n, budget, min); }
  }

  /** It does not go on once it has enough: without the message kept last, it had not. */
  lemma {:induction false} FillStopsInTime(scored: seq<Message>, n: nat, budget: int, min: int)
    requires Positive(scored) && Fill(scored, n, budget, min).kept != []
    ensures var w := Fill(scored, n, budget, min);
            var last := w.kept[|w.kept| - 1];
            |w.kept| - 1 < min || 10 * (w.used - last.tokens) < 9 * budget
  {
    var front := scored[..|scored| - 1];
    var before, w := Fill(front, n, budget, min), Fill(scored, n, budget, min);
    if w.kept == before.kept {
      FillStopsInTime(front, n, budget, min);
    } else if front != [] {
      FillStopsIff(front, n, budget, min);
    }
  }

  /**
    The window stops in time: whichever message it keeps last, in rank order, without it there were
    fewer than the minimum or less than nine tenths of the budget was used.
  */
  lemma WindowStopsInTime(ms: seq<Message>, maxTokens: int, preserve: bool, min: int)
    requires Positive(ms) && WindowOf(ms, maxTokens, preserve, min).kept != []
    ensures var kept := WindowOf(ms, maxTokens, preserve, min).kept;
            var budget := maxTokens - Tokens(ProtectedOf(ms, preserve));
            |kept| - 1 < min || 10 * (Tokens(kept) - kept[|kept| - 1].tokens) < 9 * budget
  {
    var scored := Ranked(ms, preserve);
    RankedPositive(ms, preserve);
    FillStopsInTime(scored, |scored|, maxTokens - Tokens(ProtectedOf(ms, preserve)), min);
    WindowAccounts(ms, maxTokens, preserve, min);
  }

  // ----- Who wins

  /** Each message kept or passed over has its place in the ranking. */
  lemma {:induction false} PlaceOf(scored: seq<Message>, n: nat, budget: int, min: int, k: nat, m: Message)
    requires k <= |scored|
    ensures m in Fill(scored[..k], n, budget, min).kept ==>
              exists j :: 0 <= j < k && scored[j] == m && Takes(scored, n, budget, min, j)
    ensures m in Fill(scored[..k], n, budget, min).passed ==>
              exists j :: 0 <= j < k && scored[j] == m && !Takes(scored, n, budget, min, j)
  {
    if k > 0 {
      PlaceOf(scored, n, budget, min, k - 1, m);
      assert scored[..k][..k - 1] == scored[..k - 1] && scored[..k][k - 1] == scored[k - 1];
      var before, after := Fill(scored[..k - 1], n, budget, min), Fill(scored[..k], n, budget, min);
      if Takes(scored, n, budget, min, k - 1) {
        assert after.passed == before.passed && after.kept == before.kept + [scored[k - 1]];
      } else {
        assert after.kept == before.kept && after.passed == before.passed + [scored[k - 1]];
      }
    }
  }

  /** A message that weighs more, by importance and recency, and is no larger. */
  predicate Outweighs(a: Message, b: Message) {
    && 0.6 * (a.importance - b.importance) + 0.4 * (a.timestamp - b.timestamp) / 1_000_000_000_000.0 > 0.0
    && a.tokens <= b.tokens
  }

  lemma RankOf(a: Message, b: Message)
    requires Outweighs(a, b)
    ensures Rank(a) < Rank(b)
  {
  }

  lemma SmallerIsEarlier(ms: seq<Message>, key: Message -> real, i: nat, j: nat)
    requires Ascending(ms, key) && i < |ms| && j < |ms| && key(ms[i]) < key(ms[j])
    ensures i < j
  {
  }

  /** If one of two competing messages is kept, no copy of one that outweighs it is passed over. */
  lemma HeavierIsNotPassed(scored: seq<Message>, budget: int, min: int, a: Message, b: Message)
    requires Positive(scored) && Ascending(scored, Rank) && Outweighs(a, b)
    requires b in Fill(scored, |scored|, budget, min).kept
    ensures a !in Fill(scored, |scored|, budget, min).passed
  {
    var n := |scored|;
    assert scored[..n] == scored;
    PlaceOf(scored, n, budget, min, n, a);
    PlaceOf(scored, n, budget, min, n, b);
    RankOf(a, b);
    forall i | 0 <= i < n && scored[i] == a ensures Takes(scored, n, budget, min, i) {
      var j :| 0 <= j < n && scored[j] == b && Takes(scored, n, budget, min, j);
      SmallerIsEarlier(scored, Rank, i, j);
      if !Takes(scored, n, budget, min, i) { KeptBelowPassedIsSmaller(scored, n, budget, min, i, j); }
    }
  }

  /**
    More important and more recent messages win: when the window truncates, a message of it takes
    all copies of every other message along that outweighs it and is no larger.
  */
  lemma HeavierWins(ms: seq<Message>, maxTokens: int, preserve: bool, min: int, a: Message, b: Message)
    requires Positive(ms) && Tokens(ms) > maxTokens && Outweighs(a, b)
    requires preserve ==> !IsSystem(a) && !IsSystem(b)
    requires b in Windowed(ms, maxTokens, preserve, min)
    ensures multiset(Windowed(ms, maxTokens, preserve, min))[a] == multiset(ms)[a]
  {
    WindowMembers(ms, maxTokens, preserve, min, a);
    WindowMembers(ms, maxTokens, preserve, min, b);
    assert b in multiset(Windowed(ms, maxTokens, preserve, min));
    RankedAscends(ms, preserve);
    RankedPositive(ms, preserve);
    HeavierKeepsAll(ms, maxTokens, preserve, min, a, b, Ranked(ms, preserve), CompetingOf(ms, preserve),
                    WindowOf(ms, maxTokens, preserve, min));
  }

  lemma HeavierKeepsAll(ms: seq<Message>, maxTokens: int, preserve: bool, min: int, a: Message, b: Message,
                        scored: seq<Message>, competing: seq<Message>, w: Window)
    requires Positive(scored) && Ascending(scored, Rank) && multiset(scored) == multiset(competing)
    requires w == Fill(scored, |scored|, maxTokens - Tokens(ProtectedOf(ms, preserve)), min)
    requires Outweighs(a, b) && b in w.kept
    ensures multiset(w.kept)[a] == multiset(competing)[a]
  {
    HeavierFills(scored, competing, maxTokens - Tokens(ProtectedOf(ms, preserve)), min, a, b);
  }

  lemma HeavierFills(scored: seq<Message>, ms: seq<Message>, budget: int, min: int, a: Message, b: Message)
    requires Positive(scored) && Ascending(scored, Rank) && multiset(scored) == multiset(ms) && Outweighs(a, b)
    requires b in Fill(scored, |scored|, budget, min).kept
    ensures multiset(Fill(scored, |scored|, budget, min).kept)[a] == multiset(ms)[a]
  {
    var w := Fill(scored, |scored|, budget, min);
    HeavierIsNotPassed(scored, budget, min, a, b);
    FillParts(scored, |scored|, budget, min);
    NotPassedIsKept(w.kept, w.passed, ms, a);
  }

  lemma RankedAscends(ms: seq<Message>, preserve: bool)
    ensures Ascending(Ranked(ms, preserve), Rank)
    ensures multiset(Ranked(ms, preserve)) == multiset(CompetingOf(ms, preserve))
  {
    SortBySorts(CompetingOf(ms, preserve), Rank);
  }

  lemma NotPassedIsKept(kept: seq<Message>, passed: seq<Message>, all: seq<Message>, m: Message)
    requires multiset(kept) + multiset(passed) == multiset(all) && m !in passed
    ensures multiset(kept)[m] == multiset(all)[m]
  {
    assert (multiset(kept) + multiset(passed))[m] == multiset(all)[m] && multiset(passed)[m] == 0;
  }

  /** A competing message is in a truncated window as often as it is kept, and not among the protected. */
  lemma WindowMembers(ms: seq<Message>, maxTokens: int, preserve: bool, min: int, m: Message)
    requires Tokens(ms) > maxTokens && (preserve ==> !IsSystem(m))
    ensures multiset(Windowed(ms, maxTokens, preserve, min))[m] ==
            multiset(WindowOf(ms, maxTokens, preserve, min).kept)[m]
    ensures multiset(CompetingOf(ms, preserve))[m] == multiset(ms)[m]
  {
    var kept := WindowOf(ms, maxTokens, preserve, min).kept;
    SortBySorts(kept, TimeOf);
    SystemIsSystem(ms);
    assert m !in ProtectedOf(ms, preserve);
    ProtectedAndCompeting(ms, preserve);
    assert (multiset(ProtectedOf(ms, preserve)) + multiset(CompetingOf(ms, preserve)))[m] == multiset(ms)[m];
  }

  /** Of two equal-sized messages of one time only the more important one is kept if there is room for one. */
  lemma ImportanceDecides(a: Message, b: Message, maxTokens: int, preserve: bool, min: int)
    requires !IsSystem(a) && !IsSystem(b) && a.timestamp == b.timestamp && a.importance > b.importance
    requires 0 < a.tokens == b.tokens <= maxTokens < a.tokens + b.tokens
    ensures Windowed([b, a], maxTokens, preserve, min) == [a]
    ensures Windowed([a, b], maxTokens, preserve, min) == [a]
  {
    BothCompete(a, b, preserve);
    BothCompete(b, a, preserve);
    assert Rank(a) < Rank(b);
    OnlyFirstFits([b, a], a, b, maxTokens, preserve, min);
    OnlyFirstFits([a, b], a, b, maxTokens, preserve, min);
  }

  lemma OnlyFirstFits(ms: seq<Message>, a: Message, b: Message, maxTokens: int, preserve: bool, min: int)
    requires 0 < a.tokens == b.tokens <= maxTokens < Tokens(ms) && Tokens(ms) == a.tokens + b.tokens
    requires ProtectedOf(ms, preserve) == [] && Ranked(ms, preserve) == [a, b]
    ensures Windowed(ms, maxTokens, preserve, min) == [a]
  {
    FirstFills(a, b, maxTokens, min);
    assert Tokens([]) == 0;
    assert WindowOf(ms, maxTokens, preserve, min).kept == [a];
    assert [] + [a] == [a];
  }

  lemma BothCompete(a: Message, b: Message, preserve: bool)
    requires !IsSystem(a) && !IsSystem(b)
    ensures ProtectedOf([a, b], preserve) == [] && CompetingOf([a, b], preserve) == [a, b]
    ensures Tokens([a, b]) == a.tokens + b.tokens && Tokens([]) == 0
    ensures Rank(a) < Rank(b) ==> SortBy([a, b], Rank) == [a, b]
    ensures Rank(b) < Rank(a) ==> SortBy([a, b], Rank) == [b, a]
  {
    assert [a, b][..1] == [a] && [a][..0] == [];
    Single(a);
    TokensOfShort([a, b]);
    assert SortBy([a, b], Rank) == Insert([a], b, Rank);
    assert Insert([], b, Rank) == [b];
  }

  lemma FirstFills(a: Message, b: Message, maxTokens: int, min: int)
    requires 0 < a.tokens == b.tokens <= maxTokens < a.tokens + b.tokens
    ensures Fill([a, b], 2, maxTokens, min).kept == [a] && SortBy([a], TimeOf) == [a]
  {
    assert [a, b][..1] == [a] && [a][..0] == [];
    assert Fill([], 2, maxTokens, min) == Window([], [], 0, false);
    assert SortBy([], TimeOf) == [];
  }

  lemma RankedPositive(ms: seq<Message>, preserve: bool)
    requires forall i :: 0 <= i < |ms| ==> ms[i].tokens > 0
    ensures var scored := Ranked(ms, preserve); forall i :: 0 <= i < |scored| ==> scored[i].tokens > 0
  {
    var scored := Ranked(ms, preserve);
    SortBySorts(CompetingOf(ms, preserve), Rank);
    ProtectedAndCompeting(ms, preserve);
    forall i | 0 <= i < |scored| ensures scored[i].tokens > 0 {
      assert scored[i] in multiset(ms);
      assert scored[i] in ms;
    }
  }

  // ----- When the minimum is met

  /** How many messages of a list fit into a budget, taken one after the other, skipping those that do not. */
  function Fitting(ms: seq<Message>, budget: int): nat {
    if ms == [] then 0
    else if ms[0].tokens <= budget then 1 + Fitting(ms[1..], budget - ms[0].tokens)
    else Fitting(ms[1..], budget)
  }

  /** What they leave of the budget. */
  function LeftOver(ms: seq<Message>, budget: int): int {
    if ms == [] then budget
    else LeftOver(ms[1..], if ms[0].tokens <= budget then budget - ms[0].tokens else budget)
  }

  lemma {:induction false} FittingSnoc(ms: seq<Message>, m: Message, budget: int)
    ensures Fitting(ms + [m], budget) == Fitting(ms, budget) + if m.tokens <= LeftOver(ms, budget) then 1 else 0
    ensures LeftOver(ms + [m], budget) ==
            LeftOver(ms, budget) - if m.tokens <= LeftOver(ms, budget) then m.tokens else 0
  {
    var all := ms + [m];
    if ms == [] {
      assert all[1..] == [];
    } else {
      assert all[1..] == ms[1..] + [m];
      FittingSnoc(ms[1..], m, if ms[0].tokens <= budget then budget - ms[0].tokens else budget);
    }
  }

  /** Without early stopping the loop takes the next message exactly if it fits. */
  lemma FillSnoc(scored: seq<Message>, n: nat, budget: int)
    requires scored != [] && |scored| <= n
    ensures var last := |scored| - 1;
            var before, all := Fill(scored[..last], n, budget, n + 1), Fill(scored, n, budget, n + 1);
            var fits := before.used + scored[last].tokens <= budget;
            && |all.kept| == |before.kept| + (if fits then 1 else 0)
            && all.used == before.used + (if fits then scored[last].tokens else 0)
  {
    FillReachesMinimum(scored[..|scored| - 1], n, budget, n + 1);
    FillUses(scored[..|scored| - 1], n, budget, n + 1);
  }

  /** The loop without early stopping keeps just these. */
  lemma {:induction false} FillIsFitting(scored: seq<Message>, n: nat, budget: int)
    requires |scored| <= n
    ensures var all := Fill(scored, n, budget, n + 1);
            |all.kept| == Fitting(scored, budget) && all.used == budget - LeftOver(scored, budget)
  {
    if scored != [] {
      var last := |scored| - 1;
      FillIsFitting(scored[..last], n, budget);
      FillSnoc(scored, n, budget);
      FittingSnoc(scored[..last], scored[last], budget);
      assert scored == scored[..last] + [scored[last]];
    }
  }

  /** With `have` messages kept anyway, stopping early never costs the minimum. */
  lemma FillMinimum(scored: seq<Message>, budget: int, min: int, have: nat)
    ensures have + |Fill(scored, |scored|, budget, min).kept| >= min <==> have + Fitting(scored, budget) >= min
  {
    FillReachesMinimum(scored, |scored|, budget, min);
    FillAccounts(scored, |scored|, budget, min);
    FillIsFitting(scored, |scored|, budget);
  }

  lemma SortLength(ms: seq<Message>, key: Message -> real)
    ensures |SortBy(ms, key)| == |ms|
  {
    SortBySorts(ms, key);
    assert |multiset(SortBy(ms, key))| == |multiset(ms)|;
  }

  /** All messages if they fit; otherwise the protected ones and those that fit beside them in rank order. */
  function WindowCount(ms: seq<Message>, maxTokens: int, preserve: bool): nat {
    if Tokens(ms) <= maxTokens then |ms|
    else
      var system := ProtectedOf(ms, preserve);
      |system| + Fitting(Ranked(ms, preserve), maxTokens - Tokens(system))
  }

  lemma WindowedLength(ms: seq<Message>, maxTokens: int, preserve: bool, min: int)
    requires Tokens(ms) > maxTokens
    ensures |Windowed(ms, maxTokens, preserve, min)| ==
            |ProtectedOf(ms, preserve)| + |WindowOf(ms, maxTokens, preserve, min).kept|
  {
    SortLength(WindowOf(ms, maxTokens, preserve, min).kept, TimeOf);
  }

  lemma KeptMinimum(ms: seq<Message>, maxTokens: int, preserve: bool, min: int, have: nat)
    ensures have + |WindowOf(ms, maxTokens, preserve, min).kept| >= min <==>
            have + Fitting(Ranked(ms, preserve), maxTokens - Tokens(ProtectedOf(ms, preserve))) >= min
  {
    FillMinimum(Ranked(ms, preserve), maxTokens - Tokens(ProtectedOf(ms, preserve)), min, have);
  }

  /** The window returns `min_messages` messages exactly when that count reaches it; stopping early never costs one. */
  lemma WindowMinimum(ms: seq<Message>, maxTokens: int, preserve: bool, min: int)
    ensures |Windowed(ms, maxTokens, preserve, min)| >= min <==> WindowCount(ms, maxTokens, preserve) >= min
  {
    if Tokens(ms) > maxTokens {
      KeptMinimum(ms, maxTokens, preserve, min, |ProtectedOf(ms, preserve)|);
      WindowedLength(ms, maxTokens, preserve, min);
    }
  }

  /** A choice of messages that fits the budget and leaves room for no other. */
  ghost predicate MaximalChoice(ms: seq<Message>, chosen: seq<Message>, rest: seq<Message>, budget: int) {
    && multiset(chosen) + multiset(rest) == multiset(ms)
    && Tokens(chosen) <= budget
    && forall m :: m in rest ==> Tokens(chosen) + m.tokens > budget
  }

  ghost predicate IsRanking(scored: seq<Message>, ms: seq<Message>) {
    multiset(scored) == multiset(ms)
  }

  /** However the scores rank the messages, the loop brings the `have` others up to the minimum. */
  ghost predicate MinimumForEveryRanking(ms: seq<Message>, budget: int, min: int, have: nat) {
    forall scored :: IsRanking(scored, ms) ==> have + |Fill(scored, |scored|, budget, min).kept| >= min
  }

  ghost predicate MaximalChoicesSuffice(ms: seq<Message>, budget: int, min: int, have: nat) {
    forall chosen, rest :: MaximalChoice(ms, chosen, rest, budget) ==> have + |chosen| >= min
  }

  /** Messages that fit together are all taken when they come first, and then nothing else if they leave no room. */
  lemma {:induction false} ChosenFirst(chosen: seq<Message>, rest: seq<Message>, budget: int)
    requires Positive(chosen) && Tokens(chosen) <= budget
    requires forall m :: m in rest ==> Tokens(chosen) + m.tokens > budget
    ensures Fitting(chosen + rest, budget) == |chosen| && LeftOver(chosen + rest, budget) == budget - Tokens(chosen)
    decreases |chosen| + |rest|
  {
    if rest != [] {
      var last := |rest| - 1;
      ChosenFirst(chosen, rest[..last], budget);
      FittingSnoc(chosen + rest[..last], rest[last], budget);
      assert chosen + rest == chosen + rest[..last] + [rest[last]];
    } else if chosen != [] {
      var last := |chosen| - 1;
      assert chosen == chosen[..last] + [chosen[last]];
      ChosenFirst(chosen[..last], [], budget);
      FittingSnoc(chosen[..last], chosen[last], budget);
      assert chosen[..last] + [] == chosen[..last] && chosen + [] == chosen;
    } else {
      assert chosen + rest == [];
    }
  }

  /** Ranked first, a maximal choice is exactly what is kept. */
  lemma ChoiceIsKept(ms: seq<Message>, chosen: seq<Message>, rest: seq<Message>, budget: int, min: int, have: nat)
    requires Positive(ms) && MaximalChoice(ms, chosen, rest, budget)
    ensures IsRanking(chosen + rest, ms)
    ensures have + |Fill(chosen + rest, |chosen + rest|, budget, min).kept| >= min <==> have + |chosen| >= min
  {
    FillMinimum(chosen + rest, budget, min, have);
    PartIsPositive(chosen, ms);
    ChosenFirst(chosen, rest, budget);
  }

  /** And under any ranking the loop, not stopped early, keeps a maximal choice. */
  lemma KeptIsMaximal(ms: seq<Message>, scored: seq<Message>, budget: nat)
    requires Positive(ms) && IsRanking(scored, ms)
    ensures var all := Fill(scored, |scored|, budget, |scored| + 1);
            MaximalChoice(ms, all.kept, all.passed, budget) && |all.kept| == Fitting(scored, budget)
  {
    PartIsPositive(scored, ms);
    FillAccounts(scored, |scored|, budget, |scored| + 1);
    FillIsMaximal(scored, |scored|, budget, |scored| + 1);
    FillReachesMinimum(scored, |scored|, budget, |scored| + 1);
    FillIsFitting(scored, |scored|, budget);
  }

  /**
    What a caller can know without the scores: the minimum is met under every ranking exactly when
    every choice that fits the budget and leaves no room for another message is large enough.
  */
  lemma EveryRankingIff(ms: seq<Message>, budget: nat, min: int, have: nat)
    requires Positive(ms)
    ensures MinimumForEveryRanking(ms, budget, min, have) <==> MaximalChoicesSuffice(ms, budget, min, have)
  {
    if MinimumForEveryRanking(ms, budget, min, have) {
      forall chosen, rest | MaximalChoice(ms, chosen, rest, budget) ensures have + |chosen| >= min {
        ChoiceIsKept(ms, chosen, rest, budget, min, have);
      }
    }
    if MaximalChoicesSuffice(ms, budget, min, have) {
      forall scored | IsRanking(scored, ms) ensures have + |Fill(scored, |scored|, budget, min).kept| >= min {
        KeptIsMaximal(ms, scored, budget);
        FillMinimum(scored, budget, min, have);
      }
    }
  }

  /** The messages with timestamps that rank them in the order given. */
  function Scored(order: seq<Message>): seq<Message> {
    seq(|order|, (i: nat) requires i < |order| => order[i].(importance := 1.0, timestamp := (|order| - i) as real))
  }

  lemma {:induction false} SortOfAscending(ms: seq<Message>, key: Message -> real)
    requires Ascending(ms, key)
    ensures SortBy(ms, key) == ms
  {
    if ms != [] {
      var front := ms[..|ms| - 1];
      SortOfAscending(front, key);
      assert ms == front + [ms[|ms| - 1]];
    }
  }

  lemma {:induction false} FittingBySize(a: seq<Message>, b: seq<Message>, budget: int)
    requires |a| == |b| && forall i :: 0 <= i < |a| ==> a[i].tokens == b[i].tokens
    ensures Fitting(a, budget) == Fitting(b, budget)
  {
    if a != [] {
      FittingBySize(a[1..], b[1..], if a[0].tokens <= budget then budget - a[0].tokens else budget);
    }
  }

  /** Every ranking arises from scores: the same messages with other timestamps are ranked, and kept, in that order. */
  lemma EveryRankingArises(order: seq<Message>, budget: int, min: int, have: nat)
    ensures SortBy(Scored(order), Rank) == Scored(order)
    ensures have + |Fill(Scored(order), |order|, budget, min).kept| >= min <==>
            have + |Fill(order, |order|, budget, min).kept| >= min
  {
    var ms := Scored(order);
    forall i, j | 0 <= i < j < |ms| ensures Rank(ms[i]) <= Rank(ms[j]) {
      assert ms[i].importance == ms[j].importance && ms[i].timestamp >= ms[j].timestamp;
    }
    SortOfAscending(ms, Rank);
    FillMinimum(ms, budget, min, have);
    FillMinimum(order, budget, min, have);
    FittingBySize(ms, order, budget);
  }

  // ----- The minimum whatever the scores

  /** A message without its scores. */
  function Strip(m: Message): Message {
    m.(timestamp := 0.0, importance := 0.0)
  }

  function Stripped(ms: seq<Message>): seq<Message> {
    seq(|ms|, (i: nat) requires i < |ms| => Strip(ms[i]))
  }

  /** The same messages with other scores, in any order. */
  ghost predicate Alike(a: seq<Message>, b: seq<Message>) {
    multiset(Stripped(a)) == multiset(Stripped(b))
  }

  lemma {:induction false} StripParts(ms: seq<Message>)
    ensures Tokens(Stripped(ms)) == Tokens(ms)
    ensures SystemOf(Stripped(ms)) == Stripped(SystemOf(ms))
    ensures OthersOf(Stripped(ms)) == Stripped(OthersOf(ms))
  {
    if ms != [] {
      var front, m := ms[..|ms| - 1], ms[|ms| - 1];
      StripParts(front);
      assert Stripped(ms)[..|ms| - 1] == Stripped(front);
      StripSnoc(SystemOf(front), m);
      StripSnoc(OthersOf(front), m);
    } else {
      assert Stripped(ms) == [];
    }
  }

  lemma StripSnoc(ms: seq<Message>, m: Message)
    ensures Stripped(ms + [m]) == Stripped(ms) + [Strip(m)] && Stripped(ms + []) == Stripped(ms)
  {
    assert ms + [] == ms;
  }

  lemma StripCompeting(ms: seq<Message>, preserve: bool)
    ensures ProtectedOf(Stripped(ms), preserve) == Stripped(ProtectedOf(ms, preserve))
    ensures CompetingOf(Stripped(ms), preserve) == Stripped(CompetingOf(ms, preserve))
    ensures Tokens(Stripped(ms)) == Tokens(ms)
  {
    StripParts(ms);
    assert Stripped([]) == [];
  }

  /** 1 for a message that is `x` without its scores. */
  function Matches(m: Message, x: Message): int {
    if Strip(m) == x then 1 else 0
  }

  lemma {:induction false} StrippedCount(ms: seq<Message>, x: Message)
    ensures Count(Stripped(ms), x) == Total(ms, (m: Message) => Matches(m, x))
  {
    if ms != [] {
      StrippedCount(ms[..|ms| - 1], x);
      assert Stripped(ms)[..|ms| - 1] == Stripped(ms[..|ms| - 1]);
    }
  }

  /** Stripping a rearrangement gives a rearrangement. */
  lemma StripPermutes(a: seq<Message>, b: seq<Message>)
    requires multiset(a) == multiset(b)
    ensures Alike(a, b)
  {
    forall x ensures multiset(Stripped(a))[x] == multiset(Stripped(b))[x] {
      StrippedCount(a, x);
      StrippedCount(b, x);
      TotalOfPermutation(a, b, (m: Message) => Matches(m, x));
      CountIsMultiplicity(Stripped(a), x);
      CountIsMultiplicity(Stripped(b), x);
    }
  }

  lemma {:induction false} PartCounts(ms: seq<Message>, x: Message)
    ensures Count(SystemOf(ms), x) == if IsSystem(x) then Count(ms, x) else 0
    ensures Count(OthersOf(ms), x) == if IsSystem(x) then 0 else Count(ms, x)
  {
    if ms != [] {
      var front, m := ms[..|ms| - 1], ms[|ms| - 1];
      PartCounts(front, x);
      SystemSnoc(ms);
      CountSnoc(if IsSystem(m) then SystemOf(front) else OthersOf(front), m, x);
    }
  }

  /** Rearranging rearranges the protected and the competing messages. */
  lemma PartsPermute(a: seq<Message>, b: seq<Message>, preserve: bool)
    requires multiset(a) == multiset(b)
    ensures multiset(ProtectedOf(a, preserve)) == multiset(ProtectedOf(b, preserve))
    ensures multiset(CompetingOf(a, preserve)) == multiset(CompetingOf(b, preserve))
  {
    if preserve {
      forall x ensures multiset(SystemOf(a))[x] == multiset(SystemOf(b))[x]
               ensures multiset(OthersOf(a))[x] == multiset(OthersOf(b))[x]
      {
        PartCounts(a, x);
        PartCounts(b, x);
        CountIsMultiplicity(a, x);
        CountIsMultiplicity(b, x);
        CountIsMultiplicity(SystemOf(a), x);
        CountIsMultiplicity(SystemOf(b), x);
        CountIsMultiplicity(OthersOf(a), x);
        CountIsMultiplicity(OthersOf(b), x);
      }
    }
  }

  lemma SameSizes(a: seq<Message>, b: seq<Message>)
    requires Alike(a, b)
    ensures |a| == |b| && Tokens(a) == Tokens(b)
  {
    StripParts(a);
    StripParts(b);
    TotalOfPermutation(Stripped(a), Stripped(b), TokensOf);
    assert |multiset(Stripped(a))| == |multiset(Stripped(b))|;
  }

  /** Conversations of the same messages have alike protected and competing messages. */
  lemma AlikeParts(a: seq<Message>, b: seq<Message>, preserve: bool)
    requires Alike(a, b)
    ensures Alike(ProtectedOf(a, preserve), ProtectedOf(b, preserve))
    ensures Alike(CompetingOf(a, preserve), CompetingOf(b, preserve))
  {
    StripCompeting(a, preserve);
    StripCompeting(b, preserve);
    PartsPermute(Stripped(a), Stripped(b), preserve);
  }

  lemma PositiveWhenAlike(a: seq<Message>, b: seq<Message>)
    requires Alike(a, b) && Positive(b)
    ensures Positive(a)
  {
    assert Positive(Stripped(b));
    PartIsPositive(Stripped(a), Stripped(b));
    forall i | 0 <= i < |a| ensures a[i].tokens > 0 { assert Stripped(a)[i].tokens > 0; }
  }

  /** However the competing messages are scored, enough of them fit. */
  lemma FitsHoweverRanked(ms: seq<Message>, competing: seq<Message>, budget: nat, min: int, have: nat)
    requires Positive(competing) && multiset(Stripped(ms)) == multiset(competing)
    requires MaximalChoicesSuffice(competing, budget, min, have)
    ensures have + Fitting(SortBy(ms, Rank), budget) >= min
  {
    var scored := SortBy(ms, Rank);
    SortBySorts(ms, Rank);
    StripPermutes(scored, ms);
    EveryRankingIff(competing, budget, min, have);
    assert IsRanking(Stripped(scored), competing);
    FillMinimum(Stripped(scored), budget, min, have);
    FittingBySize(Stripped(scored), scored, budget);
  }

  /** Whatever the scores, enough messages fit if every maximal choice is large enough. */
  lemma FitsWhateverScores(ms: seq<Message>, other: seq<Message>, maxTokens: int, preserve: bool, min: int)
    requires Positive(ms) && Alike(other, ms)
    requires Tokens(ms) > maxTokens >= Tokens(ProtectedOf(ms, preserve))
    requires MaximalChoicesSuffice(Stripped(CompetingOf(ms, preserve)), maxTokens - Tokens(ProtectedOf(ms, preserve)),
                                   min, |ProtectedOf(ms, preserve)|)
    ensures |Windowed(other, maxTokens, preserve, min)| >= min
  {
    var system, budget := ProtectedOf(ms, preserve), maxTokens - Tokens(ProtectedOf(ms, preserve));
    SameSizes(other, ms);
    AlikeParts(other, ms, preserve);
    SameSizes(ProtectedOf(other, preserve), system);
    CompetingIsPositive(ms, preserve);
    FitsHoweverRanked(CompetingOf(other, preserve), Stripped(CompetingOf(ms, preserve)), budget, min, |system|);
    MinimumOver(other, maxTokens, preserve, min, |system|, budget, CompetingOf(other, preserve));
  }

  /** `WindowMinimum` over the limit, in terms of what the window is made of. */
  lemma MinimumOver(ms: seq<Message>, maxTokens: int, preserve: bool, min: int,
                    have: nat, budget: int, competing: seq<Message>)
    requires Tokens(ms) > maxTokens && have == |ProtectedOf(ms, preserve)|
    requires budget == maxTokens - Tokens(ProtectedOf(ms, preserve)) && competing == CompetingOf(ms, preserve)
    ensures |Windowed(ms, maxTokens, preserve, min)| >= min <==> have + Fitting(SortBy(competing, Rank), budget) >= min
  {
    WindowMinimum(ms, maxTokens, preserve, min);
  }

  lemma CompetingIsPositive(ms: seq<Message>, preserve: bool)
    requires Positive(ms)
    ensures Positive(Stripped(CompetingOf(ms, preserve)))
  {
    ProtectedAndCompeting(ms, preserve);
    PartIsPositive(CompetingOf(ms, preserve), ms);
  }

  /** The conversation whose scores rank the competing messages in a given order. */
  function Arranged(ms: seq<Message>, preserve: bool, order: seq<Message>): seq<Message> {
    ProtectedOf(ms, preserve) + Scored(order)
  }

  lemma {:induction false} PartsConcat(a: seq<Message>, b: seq<Message>)
    ensures OthersOf(a + b) == OthersOf(a) + OthersOf(b)
  {
    if b == [] {
      assert a + b == a;
    } else {
      assert (a + b)[..|a + b| - 1] == a + b[..|b| - 1];
      PartsConcat(a, b[..|b| - 1]);
    }
  }

  lemma {:induction false} OthersOfSystem(ms: seq<Message>)
    requires forall m :: m in ms ==> IsSystem(m)
    ensures OthersOf(ms) == []
  {
    if ms != [] { OthersOfSystem(ms[..|ms| - 1]); }
  }

  lemma {:induction false} OthersOfOthers(ms: seq<Message>)
    requires forall m :: m in ms ==> !IsSystem(m)
    ensures OthersOf(ms) == ms
  {
    if ms != [] {
      var front, m := ms[..|ms| - 1], ms[|ms| - 1];
      OthersOfOthers(front);
      SystemSnoc(ms);
      assert m in ms && ms == front + [m];
    }
  }

  lemma ArrangedParts(ms: seq<Message>, preserve: bool, order: seq<Message>)
    requires IsRanking(order, Stripped(CompetingOf(ms, preserve)))
    ensures ProtectedOf(Arranged(ms, preserve, order), preserve) == ProtectedOf(ms, preserve)
    ensures CompetingOf(Arranged(ms, preserve, order), preserve) == Scored(order)
  {
    if preserve {
      var system, others := SystemOf(ms), Scored(order);
      SystemIsSystem(ms);
      ScoredAreOthers(OthersOf(ms), order);
      SystemOfConcat(system, others);
      PartsConcat(system, others);
      SystemOfUniform(system);
      SystemOfUniform(others);
      OthersOfSystem(system);
      OthersOfOthers(others);
    } else {
      assert Arranged(ms, preserve, order) == Scored(order);
    }
  }

  lemma ScoredAreOthers(others: seq<Message>, order: seq<Message>)
    requires IsRanking(order, Stripped(others)) && forall m :: m in others ==> !IsSystem(m)
    ensures forall m :: m in Scored(order) ==> !IsSystem(m)
  {
    forall i | 0 <= i < |order| ensures !IsSystem(Scored(order)[i]) {
      assert order[i] in multiset(order);
      var k :| 0 <= k < |others| && Stripped(others)[k] == order[i];
      assert others[k] in others;
    }
  }

  lemma ArrangedIsAlike(ms: seq<Message>, preserve: bool, order: seq<Message>)
    requires IsRanking(order, Stripped(CompetingOf(ms, preserve)))
    ensures Alike(Arranged(ms, preserve, order), ms)
  {
    var system := ProtectedOf(ms, preserve);
    forall i | 0 <= i < |order| ensures Strip(order[i]) == order[i] {
      assert order[i] in multiset(order) && order[i] in Stripped(CompetingOf(ms, preserve));
    }
    assert Stripped(Scored(order)) == order;
    assert Stripped(Arranged(ms, preserve, order)) == Stripped(system) + order;
    StripCompeting(ms, preserve);
    ProtectedAndCompeting(Stripped(ms), preserve);
  }

  lemma ArrangedCount(ms: seq<Message>, maxTokens: int, preserve: bool, min: int, order: seq<Message>)
    requires Tokens(ms) > maxTokens && IsRanking(order, Stripped(CompetingOf(ms, preserve)))
    ensures |Windowed(Arranged(ms, preserve, order), maxTokens, preserve, min)| >= min <==>
            |ProtectedOf(ms, preserve)| + Fitting(order, maxTokens - Tokens(ProtectedOf(ms, preserve))) >= min
  {
    var arranged, system := Arranged(ms, preserve, order), ProtectedOf(ms, preserve);
    ArrangedParts(ms, preserve, order);
    ArrangedIsAlike(ms, preserve, order);
    SameSizes(arranged, ms);
    ScoredFitting(order, maxTokens - Tokens(system));
    MinimumOver(arranged, maxTokens, preserve, min, |system|, maxTokens - Tokens(system), Scored(order));
  }

  lemma ScoredFitting(order: seq<Message>, budget: int)
    ensures Fitting(SortBy(Scored(order), Rank), budget) == Fitting(order, budget)
  {
    EveryRankingArises(order, 0, 0, 0);
    FittingBySize(Scored(order), order, budget);
  }

  /** The window returns the minimum for every conversation of the same messages. */
  ghost predicate MinimumWhateverScores(ms: seq<Message>, maxTokens: int, preserve: bool, min: int) {
    forall other :: Alike(other, ms) ==> |Windowed(other, maxTokens, preserve, min)| >= min
  }

  /** Messages that fit are all returned, and with no room beside the protected ones only those are. */
  lemma ExtremesWhateverScores(ms: seq<Message>, maxTokens: int, preserve: bool, min: int)
    requires Positive(ms)
    ensures Tokens(ms) <= maxTokens ==> (MinimumWhateverScores(ms, maxTokens, preserve, min) <==> |ms| >= min)
    ensures Tokens(ms) > maxTokens && Tokens(ProtectedOf(ms, preserve)) > maxTokens ==>
              (MinimumWhateverScores(ms, maxTokens, preserve, min) <==> |ProtectedOf(ms, preserve)| >= min)
  {
    forall other | Alike(other, ms)
      ensures Tokens(ms) <= maxTokens ==> |Windowed(other, maxTokens, preserve, min)| == |ms|
      ensures Tokens(ms) > maxTokens && Tokens(ProtectedOf(ms, preserve)) > maxTokens ==>
                |Windowed(other, maxTokens, preserve, min)| == |ProtectedOf(ms, preserve)|
    {
      SameSizes(other, ms);
      AlikeParts(other, ms, preserve);
      SameSizes(ProtectedOf(other, preserve), ProtectedOf(ms, preserve));
      PositiveWhenAlike(other, ms);
      if Tokens(ms) > maxTokens && Tokens(ProtectedOf(ms, preserve)) > maxTokens {
        OnlyProtectedRemain(other, maxTokens, preserve, min);
      }
    }
    assert Alike(ms, ms);
  }

  /**
    What a caller can promise without knowing the scores: every conversation of these messages gets
    the minimum back exactly when they fit and are that many; or the protected ones alone are that
    many; or beside them every choice that fits and leaves no room for another message is large enough.
  */
  lemma MinimumWhateverScoresIff(ms: seq<Message>, maxTokens: int, preserve: bool, min: int)
    requires Positive(ms)
    ensures MinimumWhateverScores(ms, maxTokens, preserve, min) <==>
            var system := ProtectedOf(ms, preserve);
            if Tokens(ms) <= maxTokens then |ms| >= min
            else if Tokens(system) > maxTokens then |system| >= min
            else MaximalChoicesSuffice(Stripped(CompetingOf(ms, preserve)), maxTokens - Tokens(system), min, |system|)
  {
    var system, budget := ProtectedOf(ms, preserve), maxTokens - Tokens(ProtectedOf(ms, preserve));
    ExtremesWhateverScores(ms, maxTokens, preserve, min);
    if Tokens(ms) > maxTokens && budget >= 0 {
      var competing := Stripped(CompetingOf(ms, preserve));
      if MaximalChoicesSuffice(competing, budget, min, |system|) {
        forall other | Alike(other, ms) ensures |Windowed(other, maxTokens, preserve, min)| >= min {
          FitsWhateverScores(ms, other, maxTokens, preserve, min);
        }
      }
      if MinimumWhateverScores(ms, maxTokens, preserve, min) {
        forall order | IsRanking(order, competing)
          ensures |system| + |Fill(order, |order|, budget, min).kept| >= min
        {
          ArrangedIsAlike(ms, preserve, order);
          ArrangedCount(ms, maxTokens, preserve, min, order);
          FillMinimum(order, budget, min, |system|);
        }
        CompetingIsPositive(ms, preserve);
        EveryRankingIff(competing, budget, min, |system|);
      }
    }
  }

  /** Any `count` of the messages fit the budget together; so do the largest. */
  ghost predicate AnyFit(ms: seq<Message>, count: nat, budget: int) {
    forall part :: multiset(part) <= multiset(ms) && |part| == count ==> Tokens(part) <= budget
  }

  /** A choice that leaves no room cannot be extended within the budget. */
  lemma ExtendedChoice(ms: seq<Message>, chosen: seq<Message>, rest: seq<Message>, budget: int, more: nat)
    requires Positive(ms) && MaximalChoice(ms, chosen, rest, budget) && 0 < more <= |rest|
    ensures !AnyFit(ms, |chosen| + more, budget)
  {
    var taken := rest[..more];
    TakenIsPart(ms, chosen, rest, more);
    PartIsPositive(taken, ms);
    FirstOfTokens(taken);
    TotalConcat(chosen, taken, TokensOf);
    assert taken[0] in rest;
    assert |chosen + taken| == |chosen| + more && Tokens(chosen + taken) > budget;
  }

  lemma TakenIsPart(ms: seq<Message>, chosen: seq<Message>, rest: seq<Message>, more: nat)
    requires multiset(chosen) + multiset(rest) == multiset(ms) && more <= |rest|
    ensures multiset(chosen + rest[..more]) <= multiset(ms) && multiset(rest[..more]) <= multiset(ms)
  {
    assert rest == rest[..more] + rest[more..];
  }

  lemma FirstOfTokens(ms: seq<Message>)
    requires ms != [] && Positive(ms)
    ensures Tokens(ms) >= ms[0].tokens
  {
    assert ms == ms[..1] + ms[1..];
    TotalConcat(ms[..1], ms[1..], TokensOf);
    TokensOfShort(ms[..1]);
    TotalNonNegative(ms[1..], TokensOf);
  }

  /** A test that is enough: the largest messages that are still needed fit together. */
  lemma LargestFitSuffice(ms: seq<Message>, budget: nat, min: int, have: nat)
    requires Positive(ms) && have <= min <= have + |ms| && AnyFit(ms, min - have, budget)
    ensures MaximalChoicesSuffice(ms, budget, min, have)
  {
    forall chosen, rest | MaximalChoice(ms, chosen, rest, budget) ensures have + |chosen| >= min {
      assert |multiset(chosen) + multiset(rest)| == |multiset(ms)|;
      if |chosen| < min - have { ExtendedChoice(ms, chosen, rest, budget, min - have - |chosen|); }
    }
  }

  lemma TokensOfShort(ms: seq<Message>)
    requires |ms| <= 2
    ensures Tokens(ms) == (if |ms| > 0 then ms[0].tokens else 0) + if |ms| > 1 then ms[1].tokens else 0
  {
    assert Total([], TokensOf) == 0;
    if |ms| == 1 {
      assert ms[..0] == [] && Total(ms, TokensOf) == Total(ms[..0], TokensOf) + TokensOf(ms[0]);
    } else if |ms| == 2 {
      TokensOfShort(ms[..1]);
    }
  }

  lemma LeftWhenFew(ms: seq<Message>, chosen: seq<Message>, rest: seq<Message>, m: Message)
    requires multiset(chosen) + multiset(rest) == multiset(ms)
    ensures |chosen| < multiset(ms)[m] ==> m in rest
  {
    assert multiset(chosen)[m] <= |multiset(chosen)|;
    assert multiset(ms)[m] == multiset(chosen)[m] + multiset(rest)[m];
  }

  /** It is not needed: beside three messages of one token, one that fits no budget of five does no harm. */
  lemma LargestNeedNotFit()
    ensures exists ms :: Positive(ms) && !AnyFit(ms, 2, 5) && MaximalChoicesSuffice(ms, 5, 2, 0)
  {
    var small, big := Message("user", "", 0.0, 1, 1.0), Message("user", "", 0.0, 10, 1.0);
    var ms := [big, small, small, small];
    TokensOfShort([big, small]);
    assert multiset([big, small]) <= multiset(ms) && |[big, small]| == 2;
    assert !AnyFit(ms, 2, 5);
    forall chosen, rest | MaximalChoice(ms, chosen, rest, 5) ensures |chosen| >= 2 {
      LeftWhenFew(ms, chosen, rest, small);
      forall i | 0 <= i < |chosen| ensures chosen[i] == small || chosen[i] == big {
        assert chosen[i] in multiset(chosen) && multiset(chosen) <= multiset(ms);
      }
      if |chosen| <= 2 { TokensOfShort(chosen); }
    }
  }

  /** One message over the budget: nothing is kept although one was asked for. */
  lemma MinimumNotAlwaysMet()
    ensures exists ms :: |ms| == 1 && |Windowed(ms, 1, true, 1)| == 0
  {
    UserIsNotSystem();
    var m := Message("user", "", 0.0, 2, 1.0);
    OversizedIsPassed(m);
    assert |[m]| == 1;
  }

  lemma Single(m: Message)
    requires !IsSystem(m)
    ensures SystemOf([m]) == [] && OthersOf([m]) == [m] && Tokens([m]) == m.tokens && SortBy([m], Rank) == [m]
  {
    assert [m][..0] == [];
    assert SystemOf([]) == [] && OthersOf([]) == [] && Total([], TokensOf) == 0 && SortBy([], Rank) == [];
  }

  lemma WindowKeepsSystem(ms: seq<Message>, maxTokens: int, min: int)
    ensures SystemOf(Windowed(ms, maxTokens, true, min)) == SystemOf(ms)
  {
    if Tokens(ms) > maxTokens {
      var kept := WindowOf(ms, maxTokens, true, min).kept;
      var tail := SortBy(kept, TimeOf);
      SystemIsSystem(ms);
      SystemOfUniform(SystemOf(ms));
      SortBySorts(kept, TimeOf);
      WindowAccounts(ms, maxTokens, true, min);
      forall m | m in tail ensures !IsSystem(m) {
        assert m in multiset(tail);
        assert m in multiset(OthersOf(ms));
      }
      SystemOfUniform(tail);
      SystemOfConcat(SystemOf(ms), tail);
    }
  }

  // ----- The pipeline

  function Summarized(ms: seq<Message>, maxTokens: int): seq<Message> {
    if Tokens(ms) <= maxTokens || |ms| <= 4 then ms else ms[..1] + ms[|ms| - 3..]
  }

  /** The three stages, each of which a strategy may skip. */
  function DedupStage(strategy: Strategy, inp: Input, fp: Fingerprint, ms: seq<Message>): seq<Message> {
    if strategy == DedupOnly || strategy == Hybrid then Deduped(ms, fp, inp.preserveSystem) else ms
  }

  function WindowStage(strategy: Strategy, inp: Input, ms: seq<Message>): seq<Message> {
    if strategy == WindowOnly || strategy == Hybrid
    then Windowed(ms, inp.maxTokens, inp.preserveSystem, inp.minMessages) else ms
  }

  function SummarizeStage(strategy: Strategy, inp: Input, ms: seq<Message>): seq<Message> {
    if strategy == SummarizeOnly || strategy == Hybrid then Summarized(ms, inp.maxTokens) else ms
  }

  function Condensed(strategy: Strategy, inp: Input, fp: Fingerprint): seq<Message> {
    SummarizeStage(strategy, inp, WindowStage(strategy, inp, DedupStage(strategy, inp, fp, inp.messages)))
  }

  lemma SummarizedIsPart(ms: seq<Message>, maxTokens: int)
    ensures multiset(Summarized(ms, maxTokens)) <= multiset(ms)
  {
    if Summarized(ms, maxTokens) != ms {
      assert ms == ms[..1] + ms[1..|ms| - 3] + ms[|ms| - 3..];
    }
  }

  /** Whatever the strategy, condensing invents and repeats nothing. */
  lemma CondensedIsPart(strategy: Strategy, inp: Input, fp: Fingerprint)
    ensures multiset(Condensed(strategy, inp, fp)) <= multiset(inp.messages)
  {
    var a := DedupStage(strategy, inp, fp, inp.messages);
    var b := WindowStage(strategy, inp, a);
    var c := SummarizeStage(strategy, inp, b);
    assert multiset(a) <= multiset(inp.messages) by { DedupedIsPart(inp.messages, fp, inp.preserveSystem); }
    assert multiset(b) <= multiset(a) by { WindowIsPart(a, inp.maxTokens, inp.preserveSystem, inp.minMessages); }
    assert multiset(c) <= multiset(b) by { SummarizedIsPart(b, inp.maxTokens); }
  }

  ghost predicate Positive(ms: seq<Message>) {
    forall i :: 0 <= i < |ms| ==> ms[i].tokens > 0
  }

  /** The hybrid pipeline with protected system messages, before truncation. */
  function HybridWindow(inp: Input, fp: Fingerprint): seq<Message> {
    Windowed(Deduped(inp.messages, fp, true), inp.maxTokens, true, inp.minMessages)
  }

  /**
    Under HYBRID with system messages protected and within the limit, every system message
    survives in order, truncation does not fire, and the limit is met.
  */
  lemma HybridMeetsLimit(inp: Input, fp: Fingerprint)
    requires inp.preserveSystem && Tokens(SystemOf(inp.messages)) <= inp.maxTokens
    ensures Condensed(Hybrid, inp, fp) == HybridWindow(inp, fp)
    ensures Tokens(Condensed(Hybrid, inp, fp)) <= inp.maxTokens
    ensures SystemOf(Condensed(Hybrid, inp, fp)) == SystemOf(inp.messages)
  {
    var d := Deduped(inp.messages, fp, true);
    DedupedKeepsSystem(inp.messages, fp);
    WindowWithinBudget(d, inp.maxTokens, true, inp.minMessages);
    WindowKeepsSystem(d, inp.maxTokens, inp.minMessages);
  }

  /** Condensing a second time changes nothing. */
  lemma HybridIsIdempotent(inp: Input, fp: Fingerprint)
    requires inp.preserveSystem && Tokens(SystemOf(inp.messages)) <= inp.maxTokens
    ensures var once := Condensed(Hybrid, inp, fp);
            Condensed(Hybrid, inp.(messages := once), fp) == once
  {
    var once := Condensed(Hybrid, inp, fp);
    var d := Deduped(inp.messages, fp, true);
    HybridMeetsLimit(inp, fp);
    WindowIsPart(d, inp.maxTokens, true, inp.minMessages);
    forall f ensures Occurrences(once, fp, true, f) <= 1 { PartOccursOnce(inp.messages, once, fp, f); }
    DedupedNoRepeats(once, fp, true);
  }

  lemma PartOccursOnce(ms: seq<Message>, part: seq<Message>, fp: Fingerprint, f: string)
    requires multiset(part) <= multiset(Deduped(ms, fp, true))
    ensures Occurrences(part, fp, true, f) <= 1
  {
    DedupedOccurrences(ms, fp, true, f);
    TotalOfPart(part, Deduped(ms, fp, true), (m: Message) => Marks(m, fp, true, f));
  }

  /**
    When "never compress system messages" holds: truncation cuts everything but the first message
    and the last three, of the whole conversation or of the window's.
  */
  predicate SystemSpared(strategy: Strategy, inp: Input) {
    var ms, system := inp.messages, SystemOf(inp.messages);
    match strategy
    case Hybrid => Tokens(system) <= inp.maxTokens || |system| <= 4
    case SummarizeOnly => Tokens(ms) <= inp.maxTokens || |ms| <= 4 || SystemOf(ms[1..|ms| - 3]) == []
    case _ => true
  }

  /** System messages survive under every strategy exactly then; deduplication and the window alone always keep them. */
  lemma SystemSurvivesIff(strategy: Strategy, inp: Input, fp: Fingerprint)
    requires inp.preserveSystem && (strategy == Hybrid ==> Positive(inp.messages))
    ensures SystemOf(Condensed(strategy, inp, fp)) == SystemOf(inp.messages) <==> SystemSpared(strategy, inp)
  {
    if strategy == Hybrid {
      HybridKeepsSystemIff(inp, fp);
    } else if strategy == SummarizeOnly {
      SummarizeKeepsSystemIff(inp.messages, inp.maxTokens);
    } else {
      OthersKeepSystem(strategy, inp, fp);
    }
  }

  lemma OthersKeepSystem(strategy: Strategy, inp: Input, fp: Fingerprint)
    requires inp.preserveSystem && strategy != Hybrid && strategy != SummarizeOnly
    ensures SystemOf(Condensed(strategy, inp, fp)) == SystemOf(inp.messages)
  {
    DedupedKeepsSystem(inp.messages, fp);
    WindowKeepsSystem(inp.messages, inp.maxTokens, inp.minMessages);
  }

  /** Cutting the middle keeps the system messages exactly when it has none. */
  lemma CutMiddle(first: seq<Message>, middle: seq<Message>, end: seq<Message>)
    ensures SystemOf(first + end) == SystemOf(first + middle + end) <==> SystemOf(middle) == []
  {
    SystemOfConcat(first + middle, end);
    SystemOfConcat(first, middle);
    SystemOfConcat(first, end);
    var a, b, c := SystemOf(first), SystemOf(middle), SystemOf(end);
    assert |a + b + c| == |a + c| + |b|;
    assert b == [] ==> a + b == a;
  }

  lemma InThree(ms: seq<Message>)
    requires |ms| > 4
    ensures ms == ms[..1] + ms[1..|ms| - 3] + ms[|ms| - 3..]
  {
  }

  lemma SummarizeKeepsSystemIff(ms: seq<Message>, maxTokens: int)
    ensures SystemOf(Summarized(ms, maxTokens)) == SystemOf(ms) <==>
            Tokens(ms) <= maxTokens || |ms| <= 4 || SystemOf(ms[1..|ms| - 3]) == []
  {
    if |ms| > 4 {
      InThree(ms);
      CutMiddle(ms[..1], ms[1..|ms| - 3], ms[|ms| - 3..]);
    }
  }

  lemma HybridKeepsSystemIff(inp: Input, fp: Fingerprint)
    requires inp.preserveSystem && Positive(inp.messages)
    ensures SystemOf(Condensed(Hybrid, inp, fp)) == SystemOf(inp.messages) <==>
            Tokens(SystemOf(inp.messages)) <= inp.maxTokens || |SystemOf(inp.messages)| <= 4
  {
    var system := SystemOf(inp.messages);
    if Tokens(system) <= inp.maxTokens {
      HybridMeetsLimit(inp, fp);
    } else {
      OnlySystemRemains(inp, fp);
      SystemIsSystem(inp.messages);
      TruncatedSystem(system, inp.maxTokens);
    }
  }

  lemma OneInTheMiddle(first: seq<Message>, m: Message, end: seq<Message>)
    requires IsSystem(m) && SystemOf(first) == [] && SystemOf(end) == []
    ensures SystemOf([m]) == [m] && SystemOf(first + [m] + end) == [m]
  {
    SystemOfUniform([m]);
    SystemOfConcat(first + [m], end);
    SystemOfConcat(first, [m]);
  }

  /** A system message in the middle of five messages is cut. */
  lemma MiddleIsCut(first: seq<Message>, m: Message, end: seq<Message>, maxTokens: int)
    requires |first| == 1 && |end| == 3 && IsSystem(m) && Tokens(first + [m] + end) > maxTokens
    requires SystemOf(first) == [] && SystemOf(end) == []
    ensures SystemOf(first + [m] + end) == [m] && SystemOf(Summarized(first + [m] + end, maxTokens)) == []
  {
    OneInTheMiddle(first, m, end);
    SystemOfConcat(first, end);
    MiddleOf(first, m, end);
  }

  /** Also when it fits a limit of one token, which the five messages of one token exceed. */
  lemma MiddleIsLost(first: seq<Message>, m: Message, end: seq<Message>)
    requires |first| == 1 && |end| == 3 && IsSystem(m) && m.tokens == 1
    requires forall x :: x in first || x in end ==> !IsSystem(x) && x.tokens == 1
    ensures var ms := first + [m] + end;
            Positive(ms) && Tokens(SystemOf(ms)) == 1 && SystemOf(Summarized(ms, 1)) != SystemOf(ms)
  {
    SystemOfUniform(first);
    SystemOfUniform(end);
    TokensOfOnes(first + [m] + end);
    TokensOfOnes([m]);
    MiddleIsCut(first, m, end, 1);
  }

  lemma MiddleOf(first: seq<Message>, m: Message, end: seq<Message>)
    requires |first| == 1 && |end| == 3
    ensures var ms := first + [m] + end; ms[..1] + ms[|ms| - 3..] == first + end
  {
  }

  /** SUMMARIZE drops a system message although it fits the limit. */
  lemma SummarizeLosesSystem(fp: Fingerprint)
    ensures exists inp: Input :: && inp.preserveSystem && Positive(inp.messages)
                                 && Tokens(SystemOf(inp.messages)) <= inp.maxTokens
                                 && SystemOf(Condensed(SummarizeOnly, inp, fp)) != SystemOf(inp.messages)
  {
    var user, system := Message("user", "", 0.0, 1, 1.0), Message("system", "", 0.0, 1, 1.0);
    UserIsNotSystem();
    var first, end := [user], seq(3, _ => user);
    MiddleIsLost(first, system, end);
    var inp := Input(SummarizeOnly, first + [system] + end, 1, true, 0);
    assert Condensed(SummarizeOnly, inp, fp) == Summarized(inp.messages, 1);
  }

  /** HYBRID drops all but four of more system messages that do not fit. */
  lemma AllSystemIsCut(inp: Input, fp: Fingerprint)
    requires inp.preserveSystem && Positive(inp.messages) && Tokens(inp.messages) > inp.maxTokens
    requires |inp.messages| > 4 && forall m :: m in inp.messages ==> IsSystem(m)
    ensures SystemOf(Condensed(Hybrid, inp, fp)) != SystemOf(inp.messages)
  {
    SystemOfUniform(inp.messages);
    HybridKeepsSystemIff(inp, fp);
  }

  lemma HybridLosesSystem(fp: Fingerprint)
    ensures exists inp: Input :: && inp.preserveSystem && Positive(inp.messages)
                                 && SystemOf(Condensed(Hybrid, inp, fp)) != SystemOf(inp.messages)
  {
    var inp := Input(Hybrid, seq(5, _ => Message("system", "", 0.0, 1, 1.0)), 1, true, 0);
    TokensOfOnes(inp.messages);
    AllSystemIsCut(inp, fp);
  }

  lemma {:induction false} TokensOfOnes(ms: seq<Message>)
    requires forall m :: m in ms ==> m.tokens == 1
    ensures Tokens(ms) == |ms|
  {
    if ms != [] { TokensOfOnes(ms[..|ms| - 1]); }
  }

  /** What HYBRID returns when messages have positive sizes: truncation meets protected messages only. */
  lemma HybridLength(inp: Input, fp: Fingerprint)
    requires Positive(inp.messages)
    ensures var d := Deduped(inp.messages, fp, inp.preserveSystem);
            var system := ProtectedOf(inp.messages, inp.preserveSystem);
            && ProtectedOf(d, inp.preserveSystem) == system
            && |Condensed(Hybrid, inp, fp)| ==
               if Tokens(d) > inp.maxTokens && Tokens(system) > inp.maxTokens
               then (if |system| > 4 then 4 else |system|)
               else |Windowed(d, inp.maxTokens, inp.preserveSystem, inp.minMessages)|
  {
    var d := Deduped(inp.messages, fp, inp.preserveSystem);
    if inp.preserveSystem { DedupedKeepsSystem(inp.messages, fp); }
    DedupedIsPart(inp.messages, fp, inp.preserveSystem);
    PartIsPositive(d, inp.messages);
    WindowTruncated(d, inp.maxTokens, inp.preserveSystem, inp.minMessages);
  }

  lemma WindowTruncated(ms: seq<Message>, maxTokens: int, preserve: bool, min: int)
    requires Positive(ms)
    ensures var system := ProtectedOf(ms, preserve);
            |Summarized(Windowed(ms, maxTokens, preserve, min), maxTokens)| ==
            if Tokens(ms) > maxTokens && Tokens(system) > maxTokens then (if |system| > 4 then 4 else |system|)
            else |Windowed(ms, maxTokens, preserve, min)|
  {
    if Tokens(ProtectedOf(ms, preserve)) > maxTokens && Tokens(ms) > maxTokens {
      OnlyProtectedRemain(ms, maxTokens, preserve, min);
    } else {
      WindowWithinBudget(ms, maxTokens, preserve, min);
    }
  }

  /**
    The count of HYBRID: as for the window after deduplication, but protected messages over the
    limit stay alone and are cut to four.
  */
  function HybridCount(inp: Input, fp: Fingerprint): nat {
    var d := Deduped(inp.messages, fp, inp.preserveSystem);
    var system := ProtectedOf(inp.messages, inp.preserveSystem);
    if Tokens(d) > inp.maxTokens && Tokens(system) > inp.maxTokens then (if |system| > 4 then 4 else |system|)
    else WindowCount(d, inp.maxTokens, inp.preserveSystem)
  }

  /** HYBRID returns `min_messages` messages exactly when its count reaches it. */
  lemma HybridMinimum(inp: Input, fp: Fingerprint)
    requires Positive(inp.messages)
    ensures |Condensed(Hybrid, inp, fp)| >= inp.minMessages <==> HybridCount(inp, fp) >= inp.minMessages
  {
    HybridLength(inp, fp);
    WindowMinimum(Deduped(inp.messages, fp, inp.preserveSystem), inp.maxTokens, inp.preserveSystem, inp.minMessages);
  }

  /** How many messages deduplication leaves alone. */
  function ExemptCount(ms: seq<Message>, preserve: bool): nat {
    if ms == [] then 0
    else ExemptCount(ms[..|ms| - 1], preserve) + if Exempt(ms[|ms| - 1], preserve) then 1 else 0
  }

  /** The fingerprints of the others. */
  function Prints(ms: seq<Message>, fp: Fingerprint, preserve: bool): set<string> {
    set i | 0 <= i < |ms| && !Exempt(ms[i], preserve) :: Print(ms[i], fp)
  }

  lemma PrintsSnoc(ms: seq<Message>, fp: Fingerprint, preserve: bool)
    requires ms != []
    ensures var last := |ms| - 1;
            && Prints(ms, fp, preserve) ==
               Prints(ms[..last], fp, preserve) + (if Exempt(ms[last], preserve) then {} else {Print(ms[last], fp)})
            && (Repeats(ms, fp, preserve, last) <==>
                  !Exempt(ms[last], preserve) && Print(ms[last], fp) in Prints(ms[..last], fp, preserve))
  {
    var front := ms[..|ms| - 1];
    forall f | f in Prints(front, fp, preserve) ensures f in Prints(ms, fp, preserve) {
      var i :| 0 <= i < |front| && !Exempt(front[i], preserve) && Print(front[i], fp) == f;
      assert ms[i] == front[i];
    }
  }

  /** Deduplication keeps the exempt messages and one of every fingerprint of the others. */
  lemma {:induction false} DedupLength(ms: seq<Message>, fp: Fingerprint, preserve: bool)
    ensures |Deduped(ms, fp, preserve)| == ExemptCount(ms, preserve) + |Prints(ms, fp, preserve)|
  {
    if ms != [] {
      var last := |ms| - 1;
      DedupLength(ms[..last], fp, preserve);
      PrintsSnoc(ms, fp, preserve);
      var prints, f := Prints(ms[..last], fp, preserve), Print(ms[last], fp);
      if Exempt(ms[last], preserve) {
        assert prints + {} == prints;
      } else if f in prints {
        assert prints + {f} == prints;
      }
    }
  }

  /** Without protection there is one message for every fingerprint of role and content. */
  lemma DedupWithoutProtection(ms: seq<Message>, fp: Fingerprint)
    ensures |Deduped(ms, fp, false)| == |set i | 0 <= i < |ms| :: fp(ms[i].role, ms[i].content)|
  {
    DedupLength(ms, fp, false);
    NobodyExempt(ms);
    assert Prints(ms, fp, false) == set i | 0 <= i < |ms| :: fp(ms[i].role, ms[i].content);
  }

  lemma {:induction false} NobodyExempt(ms: seq<Message>)
    ensures ExemptCount(ms, false) == 0
  {
    if ms != [] { NobodyExempt(ms[..|ms| - 1]); }
  }

  /** How many messages each strategy can return; the first two and the fourth take no notice of the minimum. */
  function CondensedCount(strategy: Strategy, inp: Input, fp: Fingerprint): nat {
    var ms := inp.messages;
    match strategy
    case NoCompression => |ms|
    case DedupOnly => ExemptCount(ms, inp.preserveSystem) + |Prints(ms, fp, inp.preserveSystem)|
    case WindowOnly => WindowCount(ms, inp.maxTokens, inp.preserveSystem)
    case SummarizeOnly => if Tokens(ms) > inp.maxTokens && |ms| > 4 then 4 else |ms|
    case Hybrid => HybridCount(inp, fp)
  }

  /** Under every strategy `min_messages` messages come back exactly when the strategy's count reaches it. */
  lemma CondensedMinimum(strategy: Strategy, inp: Input, fp: Fingerprint)
    requires strategy == Hybrid ==> Positive(inp.messages)
    ensures |Condensed(strategy, inp, fp)| >= inp.minMessages <==> CondensedCount(strategy, inp, fp) >= inp.minMessages
  {
    match strategy
    case NoCompression =>
    case DedupOnly => DedupLength(inp.messages, fp, inp.preserveSystem);
    case WindowOnly => WindowMinimum(inp.messages, inp.maxTokens, inp.preserveSystem, inp.minMessages);
    case SummarizeOnly =>
    case Hybrid => HybridMinimum(inp, fp);
  }

  lemma PartIsPositive(a: seq<Message>, b: seq<Message>)
    requires multiset(a) <= multiset(b) && Positive(b)
    ensures Positive(a)
  {
    forall i | 0 <= i < |a| ensures a[i].tokens > 0 {
      assert a[i] in multiset(a);
      assert a[i] in multiset(b);
      assert a[i] in b;
    }
  }

  lemma TruncatedSystem(system: seq<Message>, maxTokens: int)
    requires Tokens(system) > maxTokens && forall m :: m in system ==> IsSystem(m)
    ensures SystemOf(Summarized(system, maxTokens)) == system <==> |system| <= 4
  {
    var out := Summarized(system, maxTokens);
    assert forall m :: m in out ==> m in system;
    SystemOfUniform(out);
  }

  lemma SystemTokens(ms: seq<Message>)
    requires Positive(ms)
    ensures Tokens(SystemOf(ms)) <= Tokens(ms)
  {
    SystemAndOthers(ms);
    TotalOfPart(SystemOf(ms), ms, TokensOf);
  }

  lemma WindowIsEmpty(ms: seq<Message>, maxTokens: int, preserve: bool, min: int)
    requires Positive(ms) && Tokens(ProtectedOf(ms, preserve)) > maxTokens
    ensures WindowOf(ms, maxTokens, preserve, min).kept == []
  {
    RankedPositive(ms, preserve);
    NothingFits(Ranked(ms, preserve), |Ranked(ms, preserve)|, maxTokens - Tokens(ProtectedOf(ms, preserve)), min);
  }

  /** With protected messages over the limit the window keeps them and nothing else. */
  lemma OnlyProtectedRemain(ms: seq<Message>, maxTokens: int, preserve: bool, min: int)
    requires Positive(ms) && Tokens(ms) > maxTokens && Tokens(ProtectedOf(ms, preserve)) > maxTokens
    ensures Windowed(ms, maxTokens, preserve, min) == ProtectedOf(ms, preserve)
  {
    WindowIsEmpty(ms, maxTokens, preserve, min);
    assert SortBy([], TimeOf) == [];
    assert ProtectedOf(ms, preserve) + [] == ProtectedOf(ms, preserve);
  }

  lemma OnlySystemRemains(inp: Input, fp: Fingerprint)
    requires inp.preserveSystem && Positive(inp.messages) && Tokens(SystemOf(inp.messages)) > inp.maxTokens
    ensures HybridWindow(inp, fp) == SystemOf(inp.messages)
  {
    var d := Deduped(inp.messages, fp, true);
    DedupedKeepsSystem(inp.messages, fp);
    DedupedIsPart(inp.messages, fp, true);
    PartIsPositive(d, inp.messages);
    SystemTokens(d);
    OnlyProtectedRemain(d, inp.maxTokens, true, inp.minMessages);
  }

  lemma {:induction false} NothingFits(scored: seq<Message>, n: nat, budget: int, min: int)
    requires budget < 0 && Positive(scored)
    ensures Fill(scored, n, budget, min).kept == [] && Fill(scored, n, budget, min).used == 0
  {
    if scored != [] { NothingFits(scored[..|scored| - 1], n, budget, min); }
  }

  // ----- Three requests that tell the strategies apart

  /** One message twice, within the limit: only deduplication shortens it. */
  const TWICE: seq<Message> := seq(2, _ => Message("user", "", 0.0, 1, 1.0))

  /** One message over the limit: only the window drops it. */
  const OVERSIZED: seq<Message> := [Message("user", "", 0.0, 2, 1.0)]

  /** Five system messages over the limit: only truncation cuts them. */
  const CROWD: seq<Message> := seq(5, _ => Message("system", "", 0.0, 1, 1.0))

  predicate Dedups(strategy: Strategy) {
    strategy == DedupOnly || strategy == Hybrid
  }

  predicate Windows(strategy: Strategy) {
    strategy == WindowOnly || strategy == Hybrid
  }

  predicate Truncates(strategy: Strategy) {
    strategy == SummarizeOnly || strategy == Hybrid
  }

  lemma UserIsNotSystem()
    ensures "user" != "system"
  {
    assert "user"[0] != "system"[0];
  }

  lemma TwiceLength(strategy: Strategy, asked: Strategy, fp: Fingerprint)
    ensures |Condensed(strategy, Input(asked, TWICE, 2, true, 2), fp)| == if Dedups(strategy) then 1 else 2
  {
    UserIsNotSystem();
    TokensOfShort(TWICE);
    DedupLength(TWICE, fp, true);
    NoneExempt(TWICE);
    assert Prints(TWICE, fp, true) == {Print(TWICE[0], fp)};
    var d := Deduped(TWICE, fp, true);
    DedupedIsPart(TWICE, fp, true);
    PartIsPositive(d, TWICE);
    TotalOfPart(d, TWICE, TokensOf);
  }

  lemma OversizedLength(strategy: Strategy, asked: Strategy, fp: Fingerprint)
    ensures |Condensed(strategy, Input(asked, OVERSIZED, 1, true, 1), fp)| == if Windows(strategy) then 0 else 1
  {
    UserIsNotSystem();
    var m := OVERSIZED[0];
    Single(m);
    assert OVERSIZED == [m] && [m][..0] == [];
    assert Deduped([m], fp, true) == [m];
    OversizedIsPassed(m);
  }

  lemma OversizedIsPassed(m: Message)
    requires !IsSystem(m) && m.tokens == 2
    ensures Windowed([m], 1, true, 1) == []
  {
    Single(m);
    assert Ranked([m], true) == [m];
    assert [m][..0] == [];
    assert Fill([m], 1, 1, 1).kept == [];
    assert Windowed([m], 1, true, 1) == [] + SortBy([], TimeOf);
  }

  lemma CrowdLength(strategy: Strategy, asked: Strategy, fp: Fingerprint)
    ensures |Condensed(strategy, Input(asked, CROWD, 1, true, 5), fp)| == if Truncates(strategy) then 4 else 5
  {
    SystemOfUniform(CROWD);
    TokensOfOnes(CROWD);
    DedupLength(CROWD, fp, true);
    AllExempt(CROWD);
    assert Prints(CROWD, fp, true) == {};
    match strategy
    case WindowOnly => OnlyProtectedRemain(CROWD, 1, true, 5);
    case Hybrid =>
      HybridLength(Input(asked, CROWD, 1, true, 5), fp);
      StaysOver(CROWD, fp, 1);
    case _ =>
  }

  /** Deduplication cannot bring protected messages over the limit back under it. */
  lemma StaysOver(ms: seq<Message>, fp: Fingerprint, maxTokens: int)
    requires Positive(ms) && Tokens(SystemOf(ms)) > maxTokens
    ensures Tokens(Deduped(ms, fp, true)) > maxTokens
  {
    DedupedKeepsSystem(ms, fp);
    DedupedIsPart(ms, fp, true);
    PartIsPositive(Deduped(ms, fp, true), ms);
    SystemTokens(Deduped(ms, fp, true));
  }

  lemma {:induction false} NoneExempt(ms: seq<Message>)
    requires forall m :: m in ms ==> !IsSystem(m)
    ensures ExemptCount(ms, true) == 0
  {
    if ms != [] { NoneExempt(ms[..|ms| - 1]); }
  }

  lemma {:induction false} AllExempt(ms: seq<Message>)
    requires forall m :: m in ms ==> IsSystem(m)
    ensures ExemptCount(ms, true) == |ms|
  {
    if ms != [] { AllExempt(ms[..|ms| - 1]); }
  }

  /** The condenser does what requests for a strategy ask for. */
  ghost predicate Obeys(own: Strategy, asked: Strategy, fp: Fingerprint) {
    forall inp: Input :: inp.strategy == asked ==> Condensed(own, inp, fp) == Condensed(asked, inp, fp)
  }

  lemma ObeysOn(own: Strategy, asked: Strategy, fp: Fingerprint, inp: Input)
    requires Obeys(own, asked, fp) && inp.strategy == asked
    ensures |Condensed(own, inp, fp)| == |Condensed(asked, inp, fp)|
  {
  }

  /** It does so exactly when that strategy is its own: the one in the request is ignored. */
  lemma RequestedStrategyIsIgnored(own: Strategy, asked: Strategy, fp: Fingerprint)
    ensures Obeys(own, asked, fp) <==> own == asked
  {
    if Obeys(own, asked, fp) {
      TwiceLength(own, asked, fp);
      TwiceLength(asked, asked, fp);
      ObeysOn(own, asked, fp, Input(asked, TWICE, 2, true, 2));
      OversizedLength(own, asked, fp);
      OversizedLength(asked, asked, fp);
      ObeysOn(own, asked, fp, Input(asked, OVERSIZED, 1, true, 1));
      CrowdLength(own, asked, fp);
      CrowdLength(asked, asked, fp);
      ObeysOn(own, asked, fp, Input(asked, CROWD, 1, true, 5));
      assert Dedups(own) == Dedups(asked) && Windows(own) == Windows(asked) && Truncates(own) == Truncates(asked);
    }
  }

  /** Deduplication and truncation miss the minimum on requests whose window would meet it. */
  lemma OtherStagesMissMinimum(fp: Fingerprint)
    ensures exists inp: Input :: && Positive(inp.messages) && |Condensed(WindowOnly, inp, fp)| >= inp.minMessages
                                 && |Condensed(DedupOnly, inp, fp)| < inp.minMessages
    ensures exists inp: Input :: && Positive(inp.messages) && |Condensed(WindowOnly, inp, fp)| >= inp.minMessages
                                 && |Condensed(SummarizeOnly, inp, fp)| < inp.minMessages
  {
    TwiceLength(WindowOnly, Hybrid, fp);
    TwiceLength(DedupOnly, Hybrid, fp);
    CrowdLength(WindowOnly, Hybrid, fp);
    CrowdLength(SummarizeOnly, Hybrid, fp);
    assert Positive(TWICE) && Positive(CROWD);
    var twice, crowd := Input(Hybrid, TWICE, 2, true, 2), Input(Hybrid, CROWD, 1, true, 5);
    assert twice.messages == TWICE && crowd.messages == CROWD;
  }

  class Condenser {
    const strategy: Strategy
    const fp: Fingerprint
    var totalCompressed: nat
    var totalSaved: int

    constructor (strategy: Strategy, fp: Fingerprint)
      ensures this.strategy == strategy && this.fp == fp && totalCompressed == 0 && totalSaved == 0
    {
      this.strategy := strategy;
      this.fp := fp;
      totalCompressed, totalSaved := 0, 0;
    }

    /** The condenser's own strategy decides; the one in the request is ignored (`RequestedStrategyIsIgnored`). */
    method Condense(inp: Input) returns (out: Output)
      modifies this
      ensures out.messages == Condensed(strategy, inp, fp)
      ensures out.strategyUsed == strategy
      ensures out.originalTokens == Tokens(inp.messages) && out.compressedTokens == Tokens(out.messages)
      ensures out.tokensSaved == out.originalTokens - out.compressedTokens
      ensures totalCompressed == old(totalCompressed) + 1 && totalSaved == old(totalSaved) + out.tokensSaved
      ensures Positive(inp.messages) ==> out.tokensSaved >= 0 && 0.0 <= out.ratio <= 1.0
      ensures out.ratio * (if out.originalTokens > 1 then out.originalTokens else 1) as real ==
              out.compressedTokens as real
    {
      var original := Tokens(inp.messages);
      var messages := RunStages(inp);
      var compressed := Tokens(messages);
      totalCompressed := totalCompressed + 1;
      totalSaved := totalSaved + (original - compressed);
      if Positive(inp.messages) { SavesTokens(inp, messages); }
      return Output(messages, original, compressed, original - compressed, Ratio(original, compressed), strategy);
    }

    method RunStages(inp: Input) returns (messages: seq<Message>)
      ensures messages == Condensed(strategy, inp, fp)
    {
      messages := inp.messages;
      if strategy == DedupOnly || strategy == Hybrid {
        messages := Dedup(messages, fp, inp.preserveSystem);
      }
      assert messages == DedupStage(strategy, inp, fp, inp.messages);
      if strategy == WindowOnly || strategy == Hybrid {
        messages := SlidingWindow(messages, inp.maxTokens, inp.preserveSystem, inp.minMessages);
      }
      if strategy == SummarizeOnly || strategy == Hybrid {
        if Tokens(messages) > inp.maxTokens { messages := Summarized(messages, inp.maxTokens); }
      }
    }

    lemma SavesTokens(inp: Input, out: seq<Message>)
      requires Positive(inp.messages) && out == Condensed(strategy, inp, fp)
      ensures 0 <= Tokens(out) <= Tokens(inp.messages)
    {
      CondensedIsPart(strategy, inp, fp);
      TotalOfPart(out, inp.messages, TokensOf);
      PartIsPositive(out, inp.messages);
      TotalNonNegative(out, TokensOf);
    }
  }

  /** What is left of the tokens, as a fraction; an empty conversation counts as one token. */
  function Ratio(original: int, compressed: int): (r: real)
    ensures 0 <= compressed <= original ==> 0.0 <= r <= 1.0
    ensures r * (if original > 1 then original else 1) as real == compressed as real
  {
    if original > 1 then
      var r := compressed as real / original as real;
      QuotientBounds(compressed as real, original as real);
      r
    else compressed as real
  }

  lemma QuotientBounds(a: real, b: real)
    requires b > 0.0
    ensures 0.0 <= a <= b ==> 0.0 <= a / b <= 1.0
  {
  }
}
