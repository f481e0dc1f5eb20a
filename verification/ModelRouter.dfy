/**
  The model router: provider calls with retries, the race for the first good answer, and the
  one-level fallback.

  Everything outside the router is a parameter: what each HTTP attempt yields, in which order
  the racing calls finish, which provider the weighted choice picks.  A call may also throw
  before its first attempt, on either side of its charge (`breaks`).
*/
module ModelRouter {
  import opened Division
  import opened Outcomes
  import opened Sequences

  datatype Strategy = Race | Smart | Uniform

  datatype Response = Response(content: string, provider: string, model: string, error: Option<string>)

  /** How a call or a whole request ends. */
  datatype End = Answered(response: Response) | Threw

  predicate Success(e: End) {
    e.Answered? && e.response.error.None?
  }

  /** What one attempt yields: a usable 200, one of 429/500/502/503, another status, or an exception. */
  datatype Post =
    | Good(content: string)
    | Overloaded(message: string, rateLimited: bool)
    | Refused(message: string)
    | TimedOut
    | Failed(message: string)

  datatype Config = Config(
    strategy: Strategy, fallback: Option<Strategy>, candidates: seq<string>,
    retryCount: int, retryOn: set<string>)

  /** The default retry settings, which a fallback router always has. */
  const DEFAULT_RETRIES: int := 2
  const DEFAULT_RETRY_ON: set<string> := {"timeout", "rate_limit", "server_error"}

  // ----- One provider call

  /** Whether preparing a call throws: pricing it comes before the charge, building its payload after. */
  datatype Break = NoBreak | BeforeCharge | AfterCharge

  /** What a provider call meets: its provider and model, the budget's answer, and each attempt's outcome. */
  datatype CallEnv = CallEnv(
    breaks: Break, provider: string, model: string, modelKnown: bool, charged: bool, posts: nat -> Post)

  /** A router that was never started has no HTTP session, so every attempt raises. */
  function Attempt(session: bool, env: CallEnv, k: nat): Post {
    if session then env.posts(k) else Failed("'NoneType' object has no attribute 'post'")
  }

  /** The outcomes that are tried again while attempts remain. */
  predicate Retryable(cfg: Config, p: Post) {
    match p
    case Overloaded(_, rateLimited) => rateLimited && "rate_limit" in cfg.retryOn
    case TimedOut => "timeout" in cfg.retryOn
    case Failed(_) => "server_error" in cfg.retryOn
    case _ => false
  }

  function Answer(env: CallEnv, p: Post): Response {
    var error :=
      match p
      case Good(_) => None
      case Overloaded(message, _) => Some(message)
      case Refused(message) => Some(message)
      case TimedOut => Some("Request timeout")
      case Failed(message) => Some(message);
    Response(if p.Good? then p.content else "", env.provider, env.model, error)
  }

  function ErrorAnswer(env: CallEnv, error: string): Response {
    Response("", env.provider, env.model, Some(error))
  }

  /** The call gets as far as its first attempt. */
  predicate Proceeds(env: CallEnv) {
    env.modelKnown && env.breaks == NoBreak && env.charged
  }

  /** The attempt, from `k` on, whose outcome is the answer. */
  function LastAttempt(cfg: Config, session: bool, env: CallEnv, k: nat): (last: nat)
    requires k <= cfg.retryCount
    ensures k <= last <= cfg.retryCount
    ensures forall j :: k <= j < last ==> Retryable(cfg, Attempt(session, env, j))
    ensures last == cfg.retryCount || !Retryable(cfg, Attempt(session, env, last))
    decreases cfg.retryCount - k
  {
    if k == cfg.retryCount || !Retryable(cfg, Attempt(session, env, k)) then k
    else LastAttempt(cfg, session, env, k + 1)
  }

  function CallEnd(cfg: Config, session: bool, env: CallEnv): End {
    if !env.modelKnown then Answered(ErrorAnswer(env, "Model " + env.model + " not found"))
    else if env.breaks == BeforeCharge then Threw
    else if !env.charged then Answered(ErrorAnswer(env, "Hourly budget exceeded"))
    else if env.breaks == AfterCharge then Threw
    else if cfg.retryCount < 0 then Answered(ErrorAnswer(env, "Exhausted all retries"))
    else Answered(Answer(env, Attempt(session, env, LastAttempt(cfg, session, env, 0))))
  }

  /**
    `_call_provider`.  One charge at most, `retry_count` + 1 attempts at most, and the answer is
    the first outcome that is not retried.  Only a negative retry count leaves the loop without an attempt.
  */
  method CallProvider(cfg: Config, session: bool, env: CallEnv) returns (e: End, charges: nat, attempts: nat)
    ensures e == CallEnd(cfg, session, env)
    ensures charges <= 1 && (charges == 0 ==> attempts == 0)
    ensures attempts <= (if cfg.retryCount < 0 then 0 else cfg.retryCount + 1)
    ensures Proceeds(env) && cfg.retryCount >= 0 ==>
              attempts == LastAttempt(cfg, session, env, 0) + 1
    ensures Proceeds(env) ==> (attempts == 0 <==> cfg.retryCount < 0)
    // an unknown model, a refused charge, and a call that throws
    ensures !env.modelKnown ==>
              charges == 0 && attempts == 0
              && e == Answered(Response("", env.provider, env.model, Some("Model " + env.model + " not found")))
    ensures env.modelKnown && env.breaks == BeforeCharge ==> charges == 0 && attempts == 0 && e == Threw
    ensures env.modelKnown && env.breaks != BeforeCharge ==> charges == 1
    ensures env.modelKnown && env.breaks != BeforeCharge && !env.charged ==>
              attempts == 0 && e == Answered(Response("", env.provider, env.model, Some("Hourly budget exceeded")))
    ensures env.modelKnown && env.breaks == AfterCharge && env.charged ==> attempts == 0 && e == Threw
    // the first outcome whose class is not listed for retries, or the last one allowed, is the answer
    ensures forall k: nat ::
              && env.modelKnown && env.breaks == NoBreak && env.charged && session && k <= cfg.retryCount
              && (forall j :: 0 <= j < k ==>
                    || (env.posts(j).TimedOut? && "timeout" in cfg.retryOn)
                    || (env.posts(j).Overloaded? && env.posts(j).rateLimited && "rate_limit" in cfg.retryOn)
                    || (env.posts(j).Failed? && "server_error" in cfg.retryOn))
              && (k == cfg.retryCount ||
                  !(|| (env.posts(k).TimedOut? && "timeout" in cfg.retryOn)
                    || (env.posts(k).Overloaded? && env.posts(k).rateLimited && "rate_limit" in cfg.retryOn)
                    || (env.posts(k).Failed? && "server_error" in cfg.retryOn))) ==>
              && attempts == k + 1
              && e == Answered(match env.posts(k)
                               case Good(content) => Response(content, env.provider, env.model, None)
                               case Overloaded(message, _) => Response("", env.provider, env.model, Some(message))
                               case Refused(message) => Response("", env.provider, env.model, Some(message))
                               case TimedOut => Response("", env.provider, env.model, Some("Request timeout"))
                               case Failed(message) => Response("", env.provider, env.model, Some(message)))
  {
    if Proceeds(env) && session {
      forall k: nat | k <= cfg.retryCount && (forall j :: 0 <= j < k ==> Retryable(cfg, env.posts(j)))
                      && (k == cfg.retryCount || !Retryable(cfg, env.posts(k)))
        ensures LastAttempt(cfg, session, env, 0) == k
      {
        assert forall j :: 0 <= j < k ==> Attempt(session, env, j) == env.posts(j);
        LastAttemptIs(cfg, session, env, 0, k);
      }
    }
    charges, attempts := 0, 0;
    if !env.modelKnown { return Answered(ErrorAnswer(env, "Model " + env.model + " not found")), 0, 0; }
    if env.breaks == BeforeCharge { return Threw, 0, 0; }
    charges := 1;
    if !env.charged { return Answered(ErrorAnswer(env, "Hourly budget exceeded")), 1, 0; }
    if env.breaks == AfterCharge { return Threw, 1, 0; }
    while attempts < cfg.retryCount + 1
      invariant attempts <= (if cfg.retryCount < 0 then 0 else cfg.retryCount + 1)
      invariant cfg.retryCount >= 0 ==> attempts <= cfg.retryCount
                                        && LastAttempt(cfg, session, env, attempts) == LastAttempt(cfg, session, env, 0)
    {
      var attempt := attempts;
      var p := Attempt(session, env, attempt);
      attempts := attempts + 1;
      if Retryable(cfg, p) && attempt < cfg.retryCount { continue; }
      return Answered(Answer(env, p)), 1, attempts;
    }
    return Answered(ErrorAnswer(env, "Exhausted all retries")), 1, attempts;
  }

  /** The attempt that answers is the only one with earlier attempts all retried and itself not, or the last. */
  lemma {:induction false} LastAttemptIs(cfg: Config, session: bool, env: CallEnv, i: nat, k: nat)
    requires i <= k <= cfg.retryCount && forall j :: i <= j < k ==> Retryable(cfg, Attempt(session, env, j))
    requires k == cfg.retryCount || !Retryable(cfg, Attempt(session, env, k))
    ensures LastAttempt(cfg, session, env, i) == k
    decreases k - i
  {
    if i < k { LastAttemptIs(cfg, session, env, i + 1, k); }
  }

  /** Attempt `k` is reached and is a good answer. */
  predicate GoodAt(cfg: Config, env: CallEnv, k: nat) {
    k <= cfg.retryCount && env.posts(k).Good? && forall j :: 0 <= j < k ==> Retryable(cfg, env.posts(j))
  }

  /** A call succeeds exactly when it has a session and its first outcome that is not retried is a good answer. */
  lemma CallSucceedsIff(cfg: Config, session: bool, env: CallEnv)
    ensures Success(CallEnd(cfg, session, env)) <==> Proceeds(env) && session && exists k: nat :: GoodAt(cfg, env, k)
    ensures forall k: nat :: Proceeds(env) && session && GoodAt(cfg, env, k) ==>
              CallEnd(cfg, session, env) == Answered(Response(env.posts(k).content, env.provider, env.model, None))
  {
    if Proceeds(env) && session && cfg.retryCount >= 0 {
      var last := LastAttempt(cfg, session, env, 0);
      forall j | 0 <= j < last ensures Retryable(cfg, env.posts(j)) {
        assert Retryable(cfg, Attempt(session, env, j));
      }
      if env.posts(last).Good? { assert GoodAt(cfg, env, last); }
      forall k: nat | GoodAt(cfg, env, k) ensures k == last {
        assert !Retryable(cfg, env.posts(k));
        assert last < k ==> Retryable(cfg, env.posts(last));
      }
    }
  }

  // ----- The race

  /** The rounds of `asyncio.wait`: each lists the calls that finished, in the order they are looked at. */
  function Flatten(rounds: seq<seq<nat>>): seq<nat> {
    if rounds == [] then [] else Flatten(rounds[..|rounds| - 1]) + rounds[|rounds| - 1]
  }

  /** Every launched call finishes exactly once; a round may be empty (a timeout). */
  predicate Completes(rounds: seq<seq<nat>>, n: nat) {
    IsPermutation(Flatten(rounds), n)
  }

  /** The first success in a list of finished calls. */
  ghost predicate FirstSuccess(ends: seq<End>, order: seq<nat>, w: Option<nat>) {
    match w
    case None => forall i :: 0 <= i < |order| && order[i] < |ends| ==> !Success(ends[order[i]])
    case Some(k) => && k < |order| && order[k] < |ends| && Success(ends[order[k]])
                    && forall i :: 0 <= i < k && order[i] < |ends| ==> !Success(ends[order[i]])
  }

  lemma {:induction false} FlattenPrefix(rounds: seq<seq<nat>>, k: nat)
    requires k <= |rounds|
    ensures Flatten(rounds[..k]) <= Flatten(rounds)
  {
    if k == |rounds| {
      assert rounds[..k] == rounds;
    } else {
      assert rounds[..|rounds| - 1][..k] == rounds[..k];
      FlattenPrefix(rounds[..|rounds| - 1], k);
    }
  }

  /** Looks through one round. */
  method ScanRound(ends: seq<End>, round: seq<nat>) returns (w: Option<nat>)
    requires forall i :: 0 <= i < |round| ==> round[i] < |ends|
    ensures FirstSuccess(ends, round, w)
  {
    var i := 0;
    while i < |round|
      invariant 0 <= i <= |round|
      invariant forall j :: 0 <= j < i ==> !Success(ends[round[j]])
    {
      if Success(ends[round[i]]) { return Some(i); }
      i := i + 1;
    }
    return None;
  }

  /** A winner within round `k`, after rounds without one, is the first overall. */
  lemma WinnerOverall(ends: seq<End>, rounds: seq<seq<nat>>, k: nat, w: nat)
    requires k < |rounds| && FirstSuccess(ends, Flatten(rounds[..k]), None) && FirstSuccess(ends, rounds[k], Some(w))
    ensures FirstSuccess(ends, Flatten(rounds), Some(|Flatten(rounds[..k])| + w))
    ensures Flatten(rounds)[|Flatten(rounds[..k])| + w] == rounds[k][w]
  {
    var before := Flatten(rounds[..k]);
    assert rounds[..k + 1][..k] == rounds[..k];
    var upto := before + rounds[k];
    assert Flatten(rounds[..k + 1]) == upto;
    FlattenPrefix(rounds, k + 1);
    assert forall i :: 0 <= i < |upto| ==> Flatten(rounds)[i] == upto[i];
  }

  /** The launched calls that no round up to `k` has finished. */
  ghost predicate IsPending(pending: set<nat>, rounds: seq<seq<nat>>, n: nat, k: nat)
    requires k <= |rounds|
  {
    forall i: nat :: i in pending <==> i < n && i !in Flatten(rounds[..k])
  }

  lemma PendingStep(pending: set<nat>, rounds: seq<seq<nat>>, n: nat, k: nat)
    requires k < |rounds| && IsPending(pending, rounds, n, k)
    ensures IsPending(pending - (set i | i in rounds[k]), rounds, n, k + 1)
    ensures Flatten(rounds[..k + 1]) == Flatten(rounds[..k]) + rounds[k]
  {
    assert rounds[..k + 1][..k] == rounds[..k];
  }

  /**
    The waiting loop of `_race`: the winner is the first success in completion order, and the
    calls still running when it is found are cancelled.
  */
  method AwaitRace(ends: seq<End>, rounds: seq<seq<nat>>) returns (winner: Option<nat>, cancelled: set<nat>)
    requires Completes(rounds, |ends|)
    ensures winner.Some? <==> exists i :: 0 <= i < |ends| && Success(ends[i])
    ensures winner.Some? ==>
              exists k: nat :: FirstSuccess(ends, Flatten(rounds), Some(k)) && Flatten(rounds)[k] == winner.value
    ensures winner.Some? ==> winner.value < |ends| && Success(ends[winner.value]) && winner.value !in cancelled
    ensures winner.Some? ==>
              exists k: nat :: && k < |rounds| && winner.value in rounds[k]
                               && IsPending(cancelled, rounds, |ends|, k + 1)
    ensures winner.None? ==> cancelled == {}
  {
    var pending: set<nat> := set i | i in Range(|ends|);
    RangeElements(|ends|);
    var k := 0;
    while pending != {}
      invariant 0 <= k <= |rounds|
      invariant IsPending(pending, rounds, |ends|, k)
      invariant FirstSuccess(ends, Flatten(rounds[..k]), None)
      decreases |rounds| - k
    {
      if k == |rounds| {
        assert rounds[..k] == rounds;
        AllFinished(rounds, |ends|);
        assert false;
      }
      RoundInRange(rounds, |ends|, k);
      PendingStep(pending, rounds, |ends|, k);
      var done := rounds[k];
      pending := pending - set i | i in done;
      var w := ScanRound(ends, done);
      if w.Some? {
        WinnerOverall(ends, rounds, k, w.value);
        assert done[w.value] in rounds[k];
        return Some(done[w.value]), pending;
      }
      k := k + 1;
    }
    forall i | 0 <= i < |ends| ensures !Success(ends[i]) {
      var order := Flatten(rounds[..k]);
      assert i in order;
    }
    return None, {};
  }

  lemma AllFinished(rounds: seq<seq<nat>>, n: nat)
    requires Completes(rounds, n)
    ensures forall i: nat :: i in Flatten(rounds) <==> i < n
  {
    forall i: nat ensures i in Flatten(rounds) <==> i < n { PermutationElements(Flatten(rounds), n, i); }
  }

  lemma RoundInRange(rounds: seq<seq<nat>>, n: nat, k: nat)
    requires Completes(rounds, n) && k < |rounds|
    ensures forall i :: 0 <= i < |rounds[k]| ==> rounds[k][i] < n
  {
    assert rounds[..k + 1][..k] == rounds[..k];
    FlattenPrefix(rounds, k + 1);
    forall i | 0 <= i < |rounds[k]| ensures rounds[k][i] < n {
      var upto := Flatten(rounds[..k]) + rounds[k];
      assert upto[|Flatten(rounds[..k])| + i] == rounds[k][i];
      assert rounds[k][i] == Flatten(rounds)[|Flatten(rounds[..k])| + i];
      PermutationElements(Flatten(rounds), n, rounds[k][i]);
    }
  }

  // ----- Requests

  /** The provider and model of a "provider/model" candidate; none without a slash, which raises. */
  function SplitCandidate(c: string): Option<(string, string)> {
    if '/' !in c then None
    else var i := IndexOf(c, '/'); Some((c[..i], c[i + 1..]))
  }

  /** Splitting is undone by joining with a slash, and the provider part holds none. */
  lemma SplitJoins(c: string)
    ensures SplitCandidate(c).Some? <==> '/' in c
    ensures SplitCandidate(c).Some? ==>
              var (p, m) := SplitCandidate(c).value; '/' !in p && p + "/" + m == c
  {
    if '/' in c {
      var i := IndexOf(c, '/');
      assert c == c[..i] + [c[i]] + c[i + 1..];
    }
  }

  predicate WellFormed(candidates: seq<string>) {
    forall i :: 0 <= i < |candidates| ==> '/' in candidates[i]
  }

  /** The candidates a race launches: those whose provider is registered. */
  function Launched(candidates: seq<string>, providers: map<string, set<string>>): seq<(string, string)>
    requires WellFormed(candidates)
  {
    if candidates == [] then []
    else
      var last := |candidates| - 1;
      var c := SplitCandidate(candidates[last]).value;
      Launched(candidates[..last], providers) + if c.0 in providers then [c] else []
  }

  /** Exactly the candidates of registered providers are launched. */
  lemma {:induction false} LaunchedExactly(candidates: seq<string>, providers: map<string, set<string>>,
                                           c: (string, string))
    requires WellFormed(candidates)
    ensures c in Launched(candidates, providers) <==>
            c.0 in providers && exists i :: 0 <= i < |candidates| && SplitCandidate(candidates[i]) == Some(c)
  {
    if candidates != [] {
      var last := |candidates| - 1;
      var front := candidates[..last];
      LaunchedExactly(front, providers, c);
      assert forall i :: 0 <= i < last ==> front[i] == candidates[i];
      if c.0 in providers && SplitCandidate(candidates[last]) != Some(c) {
        if i :| 0 <= i < |candidates| && SplitCandidate(candidates[i]) == Some(c) {
          assert SplitCandidate(front[i]) == Some(c);
        }
      }
    }
  }

  /** What a request meets: one environment per launched call, their completion order, and the weighted choice. */
  datatype RouteEnv = RouteEnv(calls: seq<CallEnv>, rounds: seq<seq<nat>>, choice: Option<string>, call: CallEnv)

  ghost predicate RaceEnv(candidates: seq<string>, providers: map<string, set<string>>, env: RouteEnv) {
    WellFormed(candidates) ==>
      var launched := Launched(candidates, providers);
      && |env.calls| == |launched| && Completes(env.rounds, |env.calls|)
      && forall i :: 0 <= i < |launched| ==>
           && env.calls[i].model == launched[i].1 && launched[i].0 in providers
           && env.calls[i].modelKnown == (launched[i].1 in providers[launched[i].0])
  }

  function Ends(cfg: Config, session: bool, calls: seq<CallEnv>): seq<End> {
    seq(|calls|, (i: nat) requires i < |calls| => CallEnd(cfg, session, calls[i]))
  }

  /** Some call of the race ends in success. */
  ghost predicate SomeSucceeds(cfg: Config, session: bool, calls: seq<CallEnv>) {
    exists i :: 0 <= i < |calls| && Success(CallEnd(cfg, session, calls[i]))
  }

  lemma SomeSucceedsInEnds(cfg: Config, session: bool, calls: seq<CallEnv>)
    ensures var ends := Ends(cfg, session, calls);
            SomeSucceeds(cfg, session, calls) <==> exists i :: 0 <= i < |ends| && Success(ends[i])
  {
    var ends := Ends(cfg, session, calls);
    assert forall i :: 0 <= i < |calls| ==> ends[i] == CallEnd(cfg, session, calls[i]);
  }

  /** The call that round-robin or the weighted choice makes for request number `n`, if choosing does not raise. */
  function ChosenCall(cfg: Config, providers: map<string, set<string>>, n: nat, env: RouteEnv): Option<CallEnv> {
    if cfg.strategy == Smart && env.choice.Some? then
      if env.choice.value in providers
      then Some(env.call.(modelKnown := env.call.model in providers[env.choice.value])) else None
    else if cfg.candidates == [] then None
    else
      var c := SplitCandidate(cfg.candidates[n % |cfg.candidates|]);
      if c.None? || c.value.0 !in providers then None
      else Some(env.call.(model := c.value.1, modelKnown := c.value.1 in providers[c.value.0]))
  }

  /** The call of model `m` at provider `p`; none, as the request raises, if the provider is not registered. */
  function CallOf(p: string, m: string, providers: map<string, set<string>>, env: RouteEnv): Option<CallEnv> {
    if p in providers then Some(env.call.(model := m, modelKnown := m in providers[p])) else None
  }

  lemma SplitIs(p: string, m: string)
    requires '/' !in p
    ensures SplitCandidate(p + "/" + m) == Some((p, m))
  {
    var c := p + "/" + m;
    var i := IndexOf(c, '/');
    assert c[|p|] == '/' && c[..|p|] == p;
    forall x | 0 <= x < |p| ensures c[x] != '/' { assert c[x] == p[x]; }
    forall x | 0 <= x < i ensures c[x] != '/' { assert c[x] == c[..i][x]; }
    assert i == |p| && c[i + 1..] == m;
  }

  lemma ChosenInTurn(cfg: Config, providers: map<string, set<string>>, n: nat, env: RouteEnv, p: string, m: string)
    requires cfg.strategy != Smart || env.choice.None?
    requires cfg.candidates != [] && '/' !in p && cfg.candidates[n % |cfg.candidates|] == p + "/" + m
    ensures ChosenCall(cfg, providers, n, env) == CallOf(p, m, providers, env)
  {
    SplitIs(p, m);
  }

  /**
    Uniform routing takes turns: as many consecutive requests as there are candidates call each
    candidate once, provider part before the first slash and model part after it, and the next ones
    start over.  `turns` says which candidate each of them calls.
  */
  lemma CandidatesTakeTurns(cfg: Config, providers: map<string, set<string>>, n: nat, ps: seq<string>, ms: seq<string>)
    returns (turns: seq<nat>)
    requires cfg.strategy != Smart && cfg.candidates != [] && |ps| == |ms| == |cfg.candidates|
    requires forall i :: 0 <= i < |ps| ==> '/' !in ps[i] && cfg.candidates[i] == ps[i] + "/" + ms[i]
    ensures |turns| == |ps| && (forall d :: 0 <= d < |turns| ==> turns[d] < |ps|)
    ensures forall i: nat :: i < |ps| ==> i in turns
    ensures forall d, e :: 0 <= d < e < |turns| ==> turns[d] != turns[e]
    ensures forall d: nat, env: RouteEnv :: d < |turns| ==>
              ChosenCall(cfg, providers, n + d, env) == CallOf(ps[turns[d]], ms[turns[d]], providers, env)
    ensures forall env: RouteEnv :: ChosenCall(cfg, providers, n + |turns|, env) == ChosenCall(cfg, providers, n, env)
  {
    var k := |ps|;
    turns := seq(k, (d: nat) => (n + d) % k);
    forall i: nat | i < k ensures i in turns {
      var d := ModHits(n, i, k);
      assert turns[d] == i;
    }
    forall d, e | 0 <= d < e < k ensures turns[d] != turns[e] { ModStep(n + d, e - d, k); }
    forall d: nat, env: RouteEnv | d < k
      ensures ChosenCall(cfg, providers, n + d, env) == CallOf(ps[turns[d]], ms[turns[d]], providers, env)
    {
      ChosenInTurn(cfg, providers, n + d, env, ps[turns[d]], ms[turns[d]]);
    }
    ModStep(n, 0, k);
  }

  /** Smart routing follows the weighted choice, and without one takes the candidate whose turn it is. */
  lemma SmartFollowsChoice(cfg: Config, providers: map<string, set<string>>, n: nat, env: RouteEnv)
    requires cfg.strategy == Smart
    ensures env.choice.Some? ==>
              ChosenCall(cfg, providers, n, env) == CallOf(env.choice.value, env.call.model, providers, env)
    ensures env.choice.None? ==>
              ChosenCall(cfg, providers, n, env) == ChosenCall(cfg.(strategy := Uniform), providers, n, env)
  {
  }

  /** One win more for the provider, and none for anybody else. */
  lemma OneWinMore(before: map<string, nat>, after: map<string, nat>, provider: string, other: string)
    requires AddsOneWin(before, after, provider)
    ensures provider in after && after[provider] == 1 + if provider in before then before[provider] else 0
    ensures other != provider ==>
              (other in after <==> other in before) && (other in before ==> after[other] == before[other])
  {
  }

  const RACE_FAILED: Response :=
    Response("", "", "", Some("All race candidates failed and no fallback configured"))

  ghost predicate AddsOneWin(before: map<string, nat>, after: map<string, nat>, provider: string) {
    after == before[provider := (if provider in before then before[provider] else 0) + 1]
  }

  class ModelRouter {
    const cfg: Config
    const providers: map<string, set<string>>
    var session: bool
    var totalRequests: nat
    var raceWins: map<string, nat>

    constructor (cfg: Config, providers: map<string, set<string>>)
      ensures this.cfg == cfg && this.providers == providers
      ensures !session && totalRequests == 0 && raceWins == map[]
    {
      this.cfg := cfg;
      this.providers := providers;
      session, totalRequests, raceWins := false, 0, map[];
    }

    method Start()
      modifies this`session
      ensures session
    {
      session := true;
    }

    /** The call that the request makes, by its number. */
    function Chosen(env: RouteEnv): Option<CallEnv>
      reads this
    {
      ChosenCall(cfg, providers, totalRequests, env)
    }

    /** Smart and uniform routing: one provider, one call. */
    method RouteToOne(env: RouteEnv) returns (e: End)
      ensures e == if Chosen(env).None? then Threw else CallEnd(cfg, session, Chosen(env).value)
    {
      var c := Chosen(env);
      if c.None? { return Threw; }
      var charges, attempts;
      e, charges, attempts := CallProvider(cfg, session, c.value);
    }

    /** The race up to its verdict: no fallback yet. */
    method RaceCandidates(calls: seq<CallEnv>, rounds: seq<seq<nat>>) returns (winner: Option<Response>)
      requires Completes(rounds, |calls|)
      modifies this`raceWins
      ensures winner.Some? <==> SomeSucceeds(cfg, session, calls)
      ensures winner.Some? ==> winner.value.error.None? && AddsOneWin(old(raceWins), raceWins, winner.value.provider)
      ensures winner.None? ==> raceWins == old(raceWins)
    {
      var ends := Ends(cfg, session, calls);
      SomeSucceedsInEnds(cfg, session, calls);
      var w, cancelled := AwaitRace(ends, rounds);
      if w.None? { return None; }
      RecordWin(ends[w.value].response.provider);
      return Some(ends[w.value].response);
    }

    method RecordWin(provider: string)
      modifies this`raceWins
      ensures AddsOneWin(old(raceWins), raceWins, provider)
    {
      raceWins := raceWins[provider := (if provider in raceWins then raceWins[provider] else 0) + 1];
    }

    /** A request that no fallback follows: any strategy on a router without one, or a single call. */
    method RouteDirect(env: RouteEnv) returns (e: End)
      requires cfg.strategy == Race ==> cfg.fallback.None? && RaceEnv(cfg.candidates, providers, env)
      modifies this
      ensures totalRequests == old(totalRequests) + 1 && session == old(session)
      ensures cfg.strategy != Race ==>
                && raceWins == old(raceWins)
                && e == if Chosen(env).None? then Threw else CallEnd(cfg, session, Chosen(env).value)
      ensures cfg.strategy == Race && WellFormed(cfg.candidates) ==>
                (Success(e) <==> SomeSucceeds(cfg, session, env.calls))
      ensures !session ==> !Success(e) && raceWins == old(raceWins)
    {
      totalRequests := totalRequests + 1;
      if cfg.strategy != Race {
        if Chosen(env).Some? { CallSucceedsIff(cfg, session, Chosen(env).value); }
        e := RouteToOne(env);
        return;
      }
      if !WellFormed(cfg.candidates) { return Threw; }
      if !session { NoSessionNoSuccess(cfg, env.calls); }
      var winner := RaceCandidates(env.calls, env.rounds);
      e := Answered(if winner.Some? then winner.value else RACE_FAILED);
    }

    /**
      `route`.  A race succeeds exactly when some launched call does, and then adds exactly one
      win.  The fallback runs at most once and one level deep (`routers` counts the routers
      created), and since its router is never started it cannot rescue the request.
    */
    method Route(env: RouteEnv, fallbackEnv: RouteEnv) returns (e: End, routers: nat)
      requires cfg.strategy == Race ==>
                 RaceEnv(cfg.candidates, providers, env) && RaceEnv(cfg.candidates, providers, fallbackEnv)
      modifies this
      ensures totalRequests == old(totalRequests) + 1 && session == old(session)
      ensures cfg.strategy == Race && WellFormed(cfg.candidates) ==>
                && (Success(e) <==> SomeSucceeds(cfg, session, env.calls))
                && (Success(e) ==> AddsOneWin(old(raceWins), raceWins, e.response.provider))
                && (!Success(e) ==> raceWins == old(raceWins))
                && routers == (if Success(e) || cfg.fallback.None? then 0 else 1)
                && (!Success(e) && cfg.fallback.None? ==> e == Answered(RACE_FAILED))
      ensures cfg.strategy == Race && !WellFormed(cfg.candidates) ==>
                e == Threw && routers == 0 && raceWins == old(raceWins)
      ensures cfg.strategy != Race ==>
                && routers == 0 && raceWins == old(raceWins)
                && e == if Chosen(env).None? then Threw else CallEnd(cfg, session, Chosen(env).value)
    {
      if cfg.strategy != Race {
        e := RouteDirect(env);
        return e, 0;
      }
      totalRequests := totalRequests + 1;
      if !WellFormed(cfg.candidates) { return Threw, 0; }
      var winner := RaceCandidates(env.calls, env.rounds);
      if winner.Some? { return Answered(winner.value), 0; }
      if cfg.fallback.None? { return Answered(RACE_FAILED), 0; }
      var fallbackCfg := Config(cfg.fallback.value, None, cfg.candidates, DEFAULT_RETRIES, DEFAULT_RETRY_ON);
      var router := new ModelRouter(fallbackCfg, providers);
      e := router.RouteDirect(fallbackEnv);
      return e, 1;
    }
  }

  /** Without a session no call succeeds, whatever its environment. */
  lemma NoSessionNoSuccess(cfg: Config, calls: seq<CallEnv>)
    ensures !SomeSucceeds(cfg, false, calls)
  {
  }
}
