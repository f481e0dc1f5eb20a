/**
  The provider router: per-provider ledgers, selection by strategy, racing, and health checks.

  How an execution ends is a parameter (a result, successful or not, or an exception), and so is
  the order in which racing executions finish and whether the race then times out.

  Here every call, race and health check is one step, as in a program with one thread.  Calls that
  overlap are the subject of `RouterSteps`.
*/
module RouterCore {
  import opened Division
  import opened Outcomes

  datatype Strategy = RoundRobin | LeastLatency | CostOptimized | Priority | Race

  datatype Status = Healthy | Degraded | Unhealthy | Disabled

  datatype Provider = Provider(
    status: Status, total: nat, failed: nat, avgLatency: real, cost: real, priority: int)

  /** `order` lists the registered names as they were inserted. */
  datatype Router = Router(
    order: seq<string>, providers: map<string, Provider>, rrIndex: nat,
    totalRequests: nat, totalFailures: nat, totalTokens: int, totalCost: real)

  datatype Config = Config(strategy: Strategy, failoverThreshold: real)

  datatype Request = Request(preferred: string, maxCost: real)

  datatype Execution = Returned(success: bool, tokens: int, cost: real) | Raised

  function FailureRate(p: Provider): real {
    if p.total == 0 then 0.0 else p.failed as real / p.total as real
  }

  predicate IsAvailable(p: Provider) {
    p.status == Healthy || p.status == Degraded
  }

  // ----- Selection

  function Available(order: seq<string>, providers: map<string, Provider>): (names: seq<string>)
    requires forall i :: 0 <= i < |order| ==> order[i] in providers
    ensures forall i :: 0 <= i < |names| ==> names[i] in order && IsAvailable(providers[names[i]])
    ensures forall n :: n in order && IsAvailable(providers[n]) ==> n in names
  {
    if order == [] then []
    else
      var last := |order| - 1;
      Available(order[..last], providers) + if IsAvailable(providers[order[last]]) then [order[last]] else []
  }

  /** The first name with the smallest key. */
  function MinBy(names: seq<string>, key: string -> real): (n: string)
    requires names != []
    ensures n in names && forall m :: m in names ==> key(n) <= key(m)
  {
    var last := names[|names| - 1];
    if |names| == 1 then last
    else
      var best := MinBy(names[..|names| - 1], key);
      if key(last) < key(best) then last else best
  }

  function Affordable(names: seq<string>, cost: string -> real, limit: real): (r: seq<string>)
    ensures forall n :: n in r <==> n in names && cost(n) <= limit
  {
    if names == [] then []
    else
      var last := |names| - 1;
      Affordable(names[..last], cost, limit) + if cost(names[last]) <= limit then [names[last]] else []
  }

  function CostOf(s: Router, n: string): real {
    if n in s.providers then s.providers[n].cost else 0.0
  }

  function LatencyOf(s: Router, n: string): real {
    if n in s.providers then s.providers[n].avgLatency else 0.0
  }

  function PriorityOf(s: Router, n: string): real {
    if n in s.providers then s.providers[n].priority as real else 0.0
  }

  /** The strategy's choice among the available names. */
  function Choose(s: Router, cfg: Config, req: Request, names: seq<string>): (n: string)
    requires names != []
    ensures n in names
    ensures cfg.strategy == LeastLatency ==> forall m :: m in names ==> LatencyOf(s, n) <= LatencyOf(s, m)
    ensures cfg.strategy == Priority ==> forall m :: m in names ==> PriorityOf(s, n) <= PriorityOf(s, m)
    ensures cfg.strategy == CostOptimized && req.maxCost > 0.0 &&
            (exists m :: m in names && CostOf(s, m) <= req.maxCost) ==>
              CostOf(s, n) <= req.maxCost
    ensures cfg.strategy == CostOptimized ==>
              forall m :: m in names && (req.maxCost > 0.0 ==> CostOf(s, m) <= req.maxCost) ==>
                CostOf(s, n) <= CostOf(s, m)
    ensures cfg.strategy == CostOptimized && (forall m :: m in names ==> CostOf(s, m) > req.maxCost) ==>
              forall m :: m in names ==> CostOf(s, n) <= CostOf(s, m)
    ensures cfg.strategy == Race ==> n == names[0]
  {
    match cfg.strategy
    case RoundRobin => names[s.rrIndex % |names|]
    case LeastLatency => MinBy(names, m => LatencyOf(s, m))
    case CostOptimized =>
      var affordable := if req.maxCost > 0.0 then Affordable(names, m => CostOf(s, m), req.maxCost) else names;
      MinBy(if affordable == [] then names else affordable, m => CostOf(s, m))
    case Priority => MinBy(names, m => PriorityOf(s, m))
    case Race => names[0]
  }

  /** The names are the registered providers, each once. */
  predicate Wf(s: Router) {
    && (forall i :: 0 <= i < |s.order| ==> s.order[i] in s.providers)
    && (forall i, j :: 0 <= i < j < |s.order| ==> s.order[i] != s.order[j])
    && (forall n :: n in s.providers ==> n in s.order)
  }

  function Select(s: Router, cfg: Config, req: Request): (r: Option<string>)
    requires Wf(s)
    ensures r.Some? ==> r.value in s.providers && IsAvailable(s.providers[r.value])
    ensures r.None? <==> forall n :: n in s.providers ==> !IsAvailable(s.providers[n])
  {
    var names := Available(s.order, s.providers);
    if names == [] then None
    else
      assert names[0] in s.providers && IsAvailable(s.providers[names[0]]);
      if req.preferred != "" && req.preferred in names then Some(req.preferred)
      else Some(Choose(s, cfg, req, names))
  }

  /** Round-robin advances only when it is asked. */
  function Advanced(s: Router, cfg: Config, req: Request): Router
    requires Wf(s)
  {
    var names := Available(s.order, s.providers);
    if names != [] && !(req.preferred != "" && req.preferred in names) && cfg.strategy == RoundRobin
    then s.(rrIndex := s.rrIndex + 1) else s
  }

  // ----- Ledgers

  /** A completed execution: counted for the router and for the provider. */
  function Completed(s: Router, n: string, tokens: int, cost: real, elapsed: real): Router
    requires n in s.providers
  {
    var p := s.providers[n];
    s.(totalRequests := s.totalRequests + 1, totalTokens := s.totalTokens + tokens, totalCost := s.totalCost + cost,
       providers := s.providers[n := p.(total := p.total + 1, avgLatency := p.avgLatency * 0.9 + elapsed * 0.1)])
  }

  /** A failed execution: counted as a request and as a failure on both sides. */
  function Failed(s: Router, n: string): Router
    requires n in s.providers
  {
    var p := s.providers[n];
    s.(totalRequests := s.totalRequests + 1, totalFailures := s.totalFailures + 1,
       providers := s.providers[n := p.(total := p.total + 1, failed := p.failed + 1)])
  }

  function Demoted(s: Router, cfg: Config, n: string): Router
    requires n in s.providers
  {
    if FailureRate(s.providers[n]) > cfg.failoverThreshold
    then s.(providers := s.providers[n := s.providers[n].(status := Degraded)]) else s
  }

  function Routed(s: Router, cfg: Config, req: Request, exec: Execution, elapsed: real): Router
    requires Wf(s)
  {
    var choice := Select(s, cfg, req);
    if choice.None? then s
    else
      var t := Advanced(s, cfg, req);
      match exec
      case Returned(_, tokens, cost) => Completed(t, choice.value, tokens, cost, elapsed)
      case Raised => Demoted(Failed(t, choice.value), cfg, choice.value)
  }

  /** The providers that take part: the named ones that are registered and available, or all available ones. */
  function Racers(s: Router, names: seq<string>): (racers: seq<string>)
    requires Wf(s)
    ensures forall i :: 0 <= i < |racers| ==> racers[i] in s.providers && IsAvailable(s.providers[racers[i]])
  {
    if names == [] then
      var racers := Available(s.order, s.providers);
      assert forall i :: 0 <= i < |racers| ==> racers[i] in s.providers;
      racers
    else NamedRacers(s, names)
  }

  function NamedRacers(s: Router, names: seq<string>): (racers: seq<string>)
    ensures forall i :: 0 <= i < |racers| ==> racers[i] in s.providers && IsAvailable(s.providers[racers[i]])
  {
    if names == [] then []
    else
      var last := |names| - 1;
      NamedRacers(s, names[..last]) +
      if names[last] in s.providers && IsAvailable(s.providers[names[last]]) then [names[last]] else []
  }

  /** One finished execution of a race, with its elapsed time. */
  datatype Finish = Finish(racer: nat, exec: Execution, elapsed: real)

  predicate Finishes(finished: seq<Finish>, n: nat) {
    forall i :: 0 <= i < |finished| ==> finished[i].racer < n
  }

  /** The position of the first success among the finished executions. */
  function WinnerOf(finished: seq<Finish>): (w: Option<nat>)
    ensures w.Some? ==> w.value < |finished| && Wins(finished[w.value])
    ensures forall i :: 0 <= i < |finished| && (w.Some? ==> i < w.value) ==> !Wins(finished[i])
  {
    if finished == [] then None
    else if Wins(finished[0]) then Some(0)
    else
      var w := WinnerOf(finished[1..]);
      if w.Some? then Some(w.value + 1) else None
  }

  predicate Wins(f: Finish) {
    f.exec.Returned? && f.exec.success
  }

  /** The ledgers after the finished executions up to and including the first success. */
  function Raced(s: Router, racers: seq<string>, finished: seq<Finish>): Router
    requires Finishes(finished, |racers|) && forall i :: 0 <= i < |racers| ==> racers[i] in s.providers
    decreases |finished|
  {
    if finished == [] then s
    else
      var f := finished[0];
      var n := racers[f.racer];
      if Wins(f) then Completed(s, n, f.exec.tokens, f.exec.cost, f.elapsed)
      else if f.exec.Raised? then Raced(Failed(s, n), racers, finished[1..])
      else Raced(s, racers, finished[1..])
  }

  function Checked(p: Provider): Provider {
    if FailureRate(p) > 0.8 then p.(status := Unhealthy)
    else if FailureRate(p) > 0.3 then p.(status := Degraded)
    else p.(status := Healthy)
  }

  function HealthChecked(s: Router): Router {
    s.(providers := map n | n in s.providers :: Checked(s.providers[n]))
  }

  // ----- Runs

  datatype Op =
    | Register(name: string, provider: Provider)
    | Route(request: Request, exec: Execution, elapsed: real)
    | RouteRace(names: seq<string>, finished: seq<Finish>)
    | HealthCheckAll

  /** New providers have new names and empty ledgers; a race's finished executions are its racers'. */
  predicate Enabled(s: Router, op: Op)
    requires Wf(s)
  {
    match op
    case Register(name, p) => name !in s.providers && p.total == 0 && p.failed == 0
    case RouteRace(names, finished) => Finishes(finished, |Racers(s, names)|)
    case _ => true
  }

  function Apply(s: Router, cfg: Config, op: Op): Router
    requires Wf(s) && Enabled(s, op)
  {
    match op
    case Register(name, p) => Registered(s, name, p)
    case Route(req, exec, elapsed) => Routed(s, cfg, req, exec, elapsed)
    case RouteRace(names, finished) => Raced(s, Racers(s, names), finished)
    case HealthCheckAll => HealthChecked(s)
  }

  function TotalOver(order: seq<string>, providers: map<string, Provider>): nat {
    if order == [] then 0
    else
      var n := order[|order| - 1];
      TotalOver(order[..|order| - 1], providers) + if n in providers then providers[n].total else 0
  }

  function FailedOver(order: seq<string>, providers: map<string, Provider>): nat {
    if order == [] then 0
    else
      var n := order[|order| - 1];
      FailedOver(order[..|order| - 1], providers) + if n in providers then providers[n].failed else 0
  }

  /** The router's totals are the sums of the providers' ledgers, and no provider fails more than it is asked. */
  predicate Balanced(s: Router) {
    && s.totalRequests == TotalOver(s.order, s.providers)
    && s.totalFailures == FailedOver(s.order, s.providers)
    && forall n :: n in s.providers ==> s.providers[n].failed <= s.providers[n].total
  }

  predicate Inv(s: Router) {
    Wf(s) && Balanced(s)
  }

  lemma {:induction false} TotalsUpdate(order: seq<string>, providers: map<string, Provider>, n: string, p: Provider)
    requires n in providers && forall i, j :: 0 <= i < j < |order| ==> order[i] != order[j]
    ensures var k := if n in order then 1 else 0;
            && TotalOver(order, providers[n := p]) == TotalOver(order, providers) + k * (p.total - providers[n].total)
            && FailedOver(order, providers[n := p]) ==
               FailedOver(order, providers) + k * (p.failed - providers[n].failed)
  {
    if order != [] {
      var last := |order| - 1;
      TotalsUpdate(order[..last], providers, n, p);
      assert order[last] == n ==> n !in order[..last];
      assert order == order[..last] + [order[last]];
    }
  }

  lemma {:induction false} TotalsSame(order: seq<string>, providers: map<string, Provider>,
                                      providers': map<string, Provider>)
    requires forall i :: 0 <= i < |order| ==>
               && order[i] in providers && order[i] in providers'
               && providers'[order[i]].total == providers[order[i]].total
               && providers'[order[i]].failed == providers[order[i]].failed
    ensures TotalOver(order, providers') == TotalOver(order, providers)
    ensures FailedOver(order, providers') == FailedOver(order, providers)
  {
    if order != [] { TotalsSame(order[..|order| - 1], providers, providers'); }
  }

  lemma CompletedInv(s: Router, n: string, tokens: int, cost: real, elapsed: real)
    requires Inv(s) && n in s.providers
    ensures Inv(Completed(s, n, tokens, cost, elapsed))
  {
    var t := Completed(s, n, tokens, cost, elapsed);
    TotalsUpdate(s.order, s.providers, n, t.providers[n]);
  }

  lemma FailedInv(s: Router, n: string)
    requires Inv(s) && n in s.providers
    ensures Inv(Failed(s, n))
  {
    TotalsUpdate(s.order, s.providers, n, Failed(s, n).providers[n]);
  }

  lemma DemotedInv(s: Router, cfg: Config, n: string)
    requires Inv(s) && n in s.providers
    ensures Inv(Demoted(s, cfg, n))
  {
    TotalsSame(s.order, s.providers, Demoted(s, cfg, n).providers);
  }

  lemma {:induction false} RacedInv(s: Router, racers: seq<string>, finished: seq<Finish>)
    requires Inv(s) && Finishes(finished, |racers|) && forall i :: 0 <= i < |racers| ==> racers[i] in s.providers
    ensures Inv(Raced(s, racers, finished))
    decreases |finished|
  {
    if finished != [] {
      var f := finished[0];
      var n := racers[f.racer];
      if Wins(f) {
        CompletedInv(s, n, f.exec.tokens, f.exec.cost, f.elapsed);
      } else if f.exec.Raised? {
        FailedInv(s, n);
        RacedInv(Failed(s, n), racers, finished[1..]);
      } else {
        RacedInv(s, racers, finished[1..]);
      }
    }
  }

  /** A name registered again keeps its place and loses its old ledger. */
  function Registered(s: Router, name: string, p: Provider): Router {
    s.(order := if name in s.providers then s.order else s.order + [name], providers := s.providers[name := p])
  }

  lemma RegisteredWf(s: Router, name: string, p: Provider)
    requires Wf(s)
    ensures Wf(Registered(s, name, p))
  {
    var t := Registered(s, name, p);
    assert name !in s.providers ==> name !in s.order && t.order[|s.order|] == name;
  }

  /** A name appended to the order adds its own ledger to the sums. */
  lemma TotalsAppend(order: seq<string>, providers: map<string, Provider>, name: string, p: Provider)
    requires name !in order && forall i :: 0 <= i < |order| ==> order[i] in providers
    ensures TotalOver(order + [name], providers[name := p]) == TotalOver(order, providers) + p.total
    ensures FailedOver(order + [name], providers[name := p]) == FailedOver(order, providers) + p.failed
  {
    TotalsSame(order, providers, providers[name := p]);
    assert (order + [name])[..|order|] == order;
  }

  lemma NewLedger(s: Router, name: string, p: Provider)
    requires Inv(s) && name !in s.providers
    ensures Balanced(Registered(s, name, p)) <==> p.total == 0 && p.failed == 0
  {
    assert name !in s.order;
    TotalsAppend(s.order, s.providers, name, p);
    var t := Registered(s, name, p);
    assert t.totalRequests == TotalOver(t.order, t.providers) <==> p.total == 0;
    assert t.totalFailures == FailedOver(t.order, t.providers) <==> p.failed == 0;
  }

  lemma ReplacedLedger(s: Router, name: string, p: Provider)
    requires Inv(s) && name in s.providers
    ensures Balanced(Registered(s, name, p)) <==>
            p.total == s.providers[name].total && p.failed == s.providers[name].failed
  {
    TotalsUpdate(s.order, s.providers, name, p);
  }

  /** Registration keeps the books exactly when the new ledger continues the old one, or is empty if there was none. */
  lemma RegisterKeepsBooksIff(s: Router, name: string, p: Provider)
    requires Inv(s)
    ensures Balanced(Registered(s, name, p)) <==>
            if name in s.providers then p.total == s.providers[name].total && p.failed == s.providers[name].failed
            else p.total == 0 && p.failed == 0
  {
    if name in s.providers { ReplacedLedger(s, name, p); } else { NewLedger(s, name, p); }
  }

  lemma RoutedInv(s: Router, cfg: Config, req: Request, exec: Execution, elapsed: real)
    requires Inv(s)
    ensures Inv(Routed(s, cfg, req, exec, elapsed))
  {
    var choice := Select(s, cfg, req);
    if choice.Some? {
      var t := Advanced(s, cfg, req);
      assert Inv(t);
      match exec
      case Returned(_, tokens, cost) => CompletedInv(t, choice.value, tokens, cost, elapsed);
      case Raised =>
        FailedInv(t, choice.value);
        DemotedInv(Failed(t, choice.value), cfg, choice.value);
    }
  }

  lemma HealthCheckedInv(s: Router)
    requires Inv(s)
    ensures Inv(HealthChecked(s))
  {
    TotalsSame(s.order, s.providers, HealthChecked(s).providers);
  }

  /** Every operation keeps the books. */
  lemma ApplyInv(s: Router, cfg: Config, op: Op)
    requires Inv(s) && Enabled(s, op)
    ensures Inv(Apply(s, cfg, op))
  {
    match op
    case Register(name, p) => RegisteredWf(s, name, p); RegisterKeepsBooksIff(s, name, p);
    case Route(req, exec, elapsed) => RoutedInv(s, cfg, req, exec, elapsed);
    case RouteRace(names, finished) => RacedInv(s, Racers(s, names), finished);
    case HealthCheckAll => HealthCheckedInv(s);
  }

  predicate IsRun(s: Router, cfg: Config, run: seq<Op>)
    requires Inv(s)
    decreases |run|
  {
    run == [] || (Enabled(s, run[0]) && (ApplyInv(s, cfg, run[0]); IsRun(Apply(s, cfg, run[0]), cfg, run[1..])))
  }

  function After(s: Router, cfg: Config, run: seq<Op>): Router
    requires Inv(s) && IsRun(s, cfg, run)
    decreases |run|
  {
    if run == [] then s
    else ApplyInv(s, cfg, run[0]); After(Apply(s, cfg, run[0]), cfg, run[1..])
  }

  const EMPTY_ROUTER: Router := Router([], map[], 0, 0, 0, 0, 0.0)

  /** Conservation: over every run the router's totals equal the sums over its providers. */
  lemma {:induction false} BooksBalance(s: Router, cfg: Config, run: seq<Op>)
    requires Inv(s) && IsRun(s, cfg, run)
    ensures Balanced(After(s, cfg, run))
    decreases |run|
  {
    if run != [] {
      ApplyInv(s, cfg, run[0]);
      BooksBalance(Apply(s, cfg, run[0]), cfg, run[1..]);
    }
  }

  // ----- Unhealthy for good

  /** Unhealthy by its own ledger. */
  predicate WrittenOff(s: Router, n: string) {
    n in s.providers && s.providers[n].status == Unhealthy && FailureRate(s.providers[n]) > 0.8
  }

  /** The providers an operation may touch. */
  ghost predicate Uses(s: Router, cfg: Config, op: Op, n: string)
    requires Wf(s)
  {
    match op
    case Route(req, _, _) => Select(s, cfg, req) == Some(n)
    case RouteRace(names, _) => n in Racers(s, names)
    case _ => false
  }

  lemma {:induction false} RacedFrame(s: Router, racers: seq<string>, finished: seq<Finish>, n: string)
    requires Finishes(finished, |racers|) && forall i :: 0 <= i < |racers| ==> racers[i] in s.providers
    requires n in s.providers && n !in racers
    ensures n in Raced(s, racers, finished).providers && Raced(s, racers, finished).providers[n] == s.providers[n]
    decreases |finished|
  {
    if finished != [] {
      var f := finished[0];
      if f.exec.Raised? { RacedFrame(Failed(s, racers[f.racer]), racers, finished[1..], n); }
      else if !Wins(f) { RacedFrame(s, racers, finished[1..], n); }
    }
  }

  lemma RoutedFrame(s: Router, cfg: Config, req: Request, exec: Execution, elapsed: real, n: string)
    requires Wf(s) && n in s.providers && Select(s, cfg, req) != Some(n)
    ensures n in Routed(s, cfg, req, exec, elapsed).providers
    ensures Routed(s, cfg, req, exec, elapsed).providers[n] == s.providers[n]
  {
  }

  /** A written-off provider is used by no operation, and its ledger stays as it is. */
  lemma WrittenOffStep(s: Router, cfg: Config, op: Op, n: string)
    requires Inv(s) && Enabled(s, op) && WrittenOff(s, n)
    ensures !Uses(s, cfg, op, n)
    ensures WrittenOff(Apply(s, cfg, op), n) && Apply(s, cfg, op).providers[n] == s.providers[n]
  {
    match op
    case Register(name, p) =>
    case Route(req, exec, elapsed) => RoutedFrame(s, cfg, req, exec, elapsed, n);
    case RouteRace(names, finished) =>
      assert n !in Racers(s, names);
      RacedFrame(s, Racers(s, names), finished, n);
    case HealthCheckAll =>
  }

  /** No operation of the run uses the provider. */
  ghost predicate NeverUsed(s: Router, cfg: Config, run: seq<Op>, n: string)
    requires Inv(s) && IsRun(s, cfg, run)
    decreases |run|
  {
    run == [] ||
    (!Uses(s, cfg, run[0], n) && (ApplyInv(s, cfg, run[0]); NeverUsed(Apply(s, cfg, run[0]), cfg, run[1..], n)))
  }

  /**
    As long as calls do not overlap, a provider that a health check marks unhealthy is never selected
    or raced again, and stays unhealthy whatever happens later, health checks included.
  */
  lemma {:induction false} UnhealthyForGood(s: Router, cfg: Config, run: seq<Op>, n: string)
    requires Inv(s) && IsRun(s, cfg, run) && WrittenOff(s, n)
    ensures NeverUsed(s, cfg, run, n)
    ensures WrittenOff(After(s, cfg, run), n)
    decreases |run|
  {
    if run != [] {
      ApplyInv(s, cfg, run[0]);
      WrittenOffStep(s, cfg, run[0], n);
      UnhealthyForGood(Apply(s, cfg, run[0]), cfg, run[1..], n);
    }
  }

  /**
    A health check looks at the ledger only: afterwards a provider is available exactly when its
    failure rate is at most 0.8, even if it was disabled before.
  */
  lemma HealthCheckDecides(s: Router, n: string)
    requires n in s.providers
    ensures IsAvailable(HealthChecked(s).providers[n]) <==> FailureRate(s.providers[n]) <= 0.8
    ensures HealthChecked(s).providers[n].status == Degraded <==> 0.3 < FailureRate(s.providers[n]) <= 0.8
    ensures HealthChecked(s).providers[n].status == Unhealthy <==> WrittenOff(HealthChecked(s), n)
  {
  }

  lemma RatioAbove(failed: nat, total: nat, tenths: nat)
    requires total > 0
    ensures failed as real / total as real > tenths as real / 10.0 <==> 10 * failed > tenths * total
  {
    var a, b, x := failed as real, total as real, tenths as real / 10.0;
    assert a == a / b * b;
    if a / b > x { assert (a / b - x) * b > 0.0; } else { assert (x - a / b) * b >= 0.0; }
    assert x * b == (tenths * total) as real / 10.0;
  }

  /** In whole numbers: more than eight failures in ten are unhealthy, more than three in ten degraded. */
  lemma HealthCheckCounts(s: Router, n: string)
    requires n in s.providers && s.providers[n].failed <= s.providers[n].total
    ensures var p, status := s.providers[n], HealthChecked(s).providers[n].status;
            status == if 10 * p.failed > 8 * p.total then Unhealthy
                      else if 10 * p.failed > 3 * p.total then Degraded else Healthy
  {
    var p := s.providers[n];
    if p.total > 0 {
      RatioAbove(p.failed, p.total, 8);
      RatioAbove(p.failed, p.total, 3);
    }
  }

  /** A provider switched off by its owner is back after one health check. */
  lemma HealthCheckRevivesDisabled()
    ensures exists p: Provider :: p.status == Disabled && IsAvailable(Checked(p))
  {
    var p := Provider(Disabled, 0, 0, 0.0, 0.0, 0);
    assert IsAvailable(Checked(p));
  }

  // ----- Who is chosen

  /** Only healthy and degraded providers are ever chosen, and none exactly when there are none. */
  lemma OnlyServiceable(s: Router, cfg: Config, req: Request)
    requires Wf(s)
    ensures Select(s, cfg, req).Some? ==>
              var n := Select(s, cfg, req).value;
              n in s.providers && (s.providers[n].status == Healthy || s.providers[n].status == Degraded)
    ensures Select(s, cfg, req).None? <==>
            forall n :: n in s.providers ==> s.providers[n].status == Unhealthy || s.providers[n].status == Disabled
  {
  }

  /** A preferred provider is chosen whenever it is available, whatever the strategy. */
  lemma PreferredWins(s: Router, cfg: Config, req: Request)
    requires Wf(s) && req.preferred != "" && req.preferred in s.providers && IsAvailable(s.providers[req.preferred])
    ensures Select(s, cfg, req) == Some(req.preferred) && Advanced(s, cfg, req) == s
  {
  }

  /**
    Of the available providers the fastest, the cheapest or the one of least priority number is chosen,
    by the strategy; so a cost limit is met whenever some available provider meets it.
  */
  lemma SelectsLeast(s: Router, cfg: Config, req: Request, n: string, m: string)
    requires Wf(s) && Select(s, cfg, req) == Some(n) && m in s.providers && IsAvailable(s.providers[m])
    requires n in s.providers
    requires req.preferred == "" || req.preferred !in s.providers || !IsAvailable(s.providers[req.preferred])
    ensures cfg.strategy == LeastLatency ==> s.providers[n].avgLatency <= s.providers[m].avgLatency
    ensures cfg.strategy == Priority ==> s.providers[n].priority <= s.providers[m].priority
    ensures cfg.strategy == CostOptimized ==> s.providers[n].cost <= s.providers[m].cost
  {
    SelectIsChoice(s, cfg, req, n, m);
    LeastOfAll(s, cfg, req, Available(s.order, s.providers), n, m);
  }

  lemma SelectIsChoice(s: Router, cfg: Config, req: Request, n: string, m: string)
    requires Wf(s) && Select(s, cfg, req) == Some(n) && m in s.providers && IsAvailable(s.providers[m])
    requires req.preferred == "" || req.preferred !in s.providers || !IsAvailable(s.providers[req.preferred])
    ensures var names := Available(s.order, s.providers);
            m in names && n == Choose(s, cfg, req, names)
  {
    var names := Available(s.order, s.providers);
    assert m in s.order && m in names;
    if req.preferred in names {
      assert req.preferred in s.order;
    }
  }

  lemma LeastOfAll(s: Router, cfg: Config, req: Request, names: seq<string>, n: string, m: string)
    requires m in names && n == Choose(s, cfg, req, names) && n in s.providers && m in s.providers
    ensures cfg.strategy == LeastLatency ==> s.providers[n].avgLatency <= s.providers[m].avgLatency
    ensures cfg.strategy == Priority ==> s.providers[n].priority <= s.providers[m].priority
    ensures cfg.strategy == CostOptimized ==> s.providers[n].cost <= s.providers[m].cost
  {
    match cfg.strategy
    case LeastLatency => assert LatencyOf(s, n) <= LatencyOf(s, m);
    case Priority => assert PriorityOf(s, n) <= PriorityOf(s, m);
    case CostOptimized => CheapestOfAll(s, cfg, req, names, m);
    case _ =>
  }

  lemma CheapestOfAll(s: Router, cfg: Config, req: Request, names: seq<string>, m: string)
    requires cfg.strategy == CostOptimized && names != [] && m in names
    ensures CostOf(s, Choose(s, cfg, req, names)) <= CostOf(s, m)
  {
    var n := Choose(s, cfg, req, names);
    if req.maxCost > 0.0 && exists x :: x in names && CostOf(s, x) <= req.maxCost {
      assert CostOf(s, n) <= req.maxCost;
      if CostOf(s, m) <= req.maxCost { assert CostOf(s, n) <= CostOf(s, m); }
    }
  }

  /** No name before the first occurrence of `n` has as small a key. */
  predicate FirstLeast(names: seq<string>, n: string, key: string -> real) {
    exists i :: 0 <= i < |names| && names[i] == n && forall j :: 0 <= j < i ==> key(n) < key(names[j])
  }

  lemma {:induction false} MinByFirst(names: seq<string>, key: string -> real)
    requires names != []
    ensures FirstLeast(names, MinBy(names, key), key)
  {
    var front, last := names[..|names| - 1], names[|names| - 1];
    if front == [] {
      assert names[0] == last;
    } else {
      MinByFirst(front, key);
      var best := MinBy(front, key);
      if key(last) < key(best) {
        assert forall j :: 0 <= j < |front| ==> front[j] in front && key(best) <= key(front[j]);
        assert names[|front|] == last && forall j :: 0 <= j < |front| ==> names[j] == front[j];
      } else {
        var i :| 0 <= i < |front| && front[i] == best && forall j :: 0 <= j < i ==> key(best) < key(front[j]);
        assert names[i] == best && forall j :: 0 <= j < i ==> names[j] == front[j];
      }
    }
  }

  /** Ties go to the provider registered first, and the race strategy takes the first available one. */
  lemma TiesGoToTheFirst(s: Router, cfg: Config, req: Request)
    requires Wf(s) && Available(s.order, s.providers) != []
    requires req.preferred == "" || req.preferred !in Available(s.order, s.providers)
    ensures var names, n := Available(s.order, s.providers), Select(s, cfg, req).value;
            && (cfg.strategy == LeastLatency ==> FirstLeast(names, n, m => LatencyOf(s, m)))
            && (cfg.strategy == Priority ==> FirstLeast(names, n, m => PriorityOf(s, m)))
            && (cfg.strategy == Race ==> n == names[0])
  {
    var names := Available(s.order, s.providers);
    match cfg.strategy
    case LeastLatency => MinByFirst(names, m => LatencyOf(s, m));
    case Priority => MinByFirst(names, m => PriorityOf(s, m));
    case _ =>
  }

  /** The available providers are listed in the order of their registration. */
  lemma {:induction false} AvailableInOrder(order: seq<string>, providers: map<string, Provider>, i: nat, j: nat)
    requires forall k :: 0 <= k < |order| ==> order[k] in providers
    requires i < j < |Available(order, providers)|
    ensures exists a, b :: 0 <= a < b < |order| && order[a] == Available(order, providers)[i]
                           && order[b] == Available(order, providers)[j]
  {
    var front, last := order[..|order| - 1], order[|order| - 1];
    var names := Available(front, providers);
    if j < |names| {
      AvailableInOrder(front, providers, i, j);
      var a, b :| 0 <= a < b < |front| && front[a] == names[i] && front[b] == names[j];
      assert order[a] == names[i] && order[b] == names[j];
    } else {
      assert names[i] in front;
      var a :| 0 <= a < |front| && front[a] == names[i];
      assert order[a] == names[i] && order[|front|] == last;
    }
  }

  /** How often a name is mentioned. */
  function Mentions(names: seq<string>, n: string): nat {
    if names == [] then 0 else Mentions(names[..|names| - 1], n) + if names[|names| - 1] == n then 1 else 0
  }

  lemma MentionsSnoc(names: seq<string>, x: string, n: string)
    ensures Mentions(names + [x], n) == Mentions(names, n) + if x == n then 1 else 0
  {
    assert (names + [x])[..|names|] == names;
  }

  lemma {:induction false} AvailableMentions(order: seq<string>, providers: map<string, Provider>, n: string)
    requires forall i :: 0 <= i < |order| ==> order[i] in providers
    ensures Mentions(Available(order, providers), n) ==
            if n in providers && IsAvailable(providers[n]) then Mentions(order, n) else 0
  {
    if order != [] {
      var front, last := order[..|order| - 1], order[|order| - 1];
      AvailableMentions(front, providers, n);
      MentionsSnoc(Available(front, providers), last, n);
      assert Available(front, providers) + [] == Available(front, providers);
    }
  }

  lemma {:induction false} NamedMentions(s: Router, names: seq<string>, n: string)
    ensures Mentions(NamedRacers(s, names), n) ==
            if n in s.providers && IsAvailable(s.providers[n]) then Mentions(names, n) else 0
  {
    if names != [] {
      var front, last := names[..|names| - 1], names[|names| - 1];
      NamedMentions(s, front, n);
      NamedLast(s, names, front, last);
      var more := if last in s.providers && IsAvailable(s.providers[last]) then [last] else [];
      MentionsMore(NamedRacers(s, front), more, n);
    }
  }

  lemma MentionsMore(names: seq<string>, more: seq<string>, n: string)
    requires |more| <= 1
    ensures Mentions(names + more, n) == Mentions(names, n) + if |more| == 1 && more[0] == n then 1 else 0
  {
    if more == [] { assert names + more == names; } else { MentionsSnoc(names, more[0], n); assert more == [more[0]]; }
  }

  lemma NamedLast(s: Router, names: seq<string>, front: seq<string>, last: string)
    requires names != [] && front == names[..|names| - 1] && last == names[|names| - 1]
    ensures NamedRacers(s, names) ==
            NamedRacers(s, front) + if last in s.providers && IsAvailable(s.providers[last]) then [last] else []
  {
  }

  lemma {:induction false} MentionedOnce(order: seq<string>, n: string)
    requires Distinct(order)
    ensures Mentions(order, n) == if n in order then 1 else 0
  {
    if order != [] {
      var front, last := order[..|order| - 1], order[|order| - 1];
      MentionedOnce(front, n);
      assert order == front + [last];
      assert last !in front;
    }
  }

  /** Every named available provider races, as often as it is named; without names each available one races once. */
  lemma RacersExactly(s: Router, names: seq<string>, n: string)
    requires Wf(s)
    ensures Mentions(Racers(s, names), n) ==
            if n !in s.providers || !IsAvailable(s.providers[n]) then 0
            else if names == [] then 1 else Mentions(names, n)
  {
    if names == [] {
      AvailableMentions(s.order, s.providers, n);
      MentionedOnce(s.order, n);
    } else {
      NamedMentions(s, names, n);
    }
  }

  // ----- Round robin

  /** A request that names no preferred provider, whom it goes to, and the router it leaves. */
  predicate AnonymousStep(s: Router, cfg: Config, op: Op, t: Router, pick: Option<string>) {
    && op.Route? && op.request.preferred == "" && Wf(s)
    && t == Routed(s, cfg, op.request, op.exec, op.elapsed) && pick == Select(s, cfg, op.request)
  }

  /**
    The first `k` of a run of requests, one after the other, none naming a preferred provider:
    `states` are the routers they meet and leave, and `served` whom they go to.
  */
  predicate Anonymous(states: seq<Router>, cfg: Config, run: seq<Op>, served: seq<Option<string>>, k: nat) {
    && |states| == |run| + 1 && |served| == |run| && k <= |run|
    && (k > 0 ==>
          && Anonymous(states, cfg, run, served, k - 1)
          && AnonymousStep(states[k - 1], cfg, run[k - 1], states[k], served[k - 1]))
  }

  lemma {:induction false} AnonymousPrefix(states: seq<Router>, cfg: Config, run: seq<Op>, served: seq<Option<string>>,
                                           k: nat, n: nat)
    requires Anonymous(states, cfg, run, served, n) && k <= n
    ensures Anonymous(states, cfg, run, served, k)
    decreases n
  {
    if k < n { AnonymousPrefix(states, cfg, run, served, k, n - 1); }
  }

  lemma {:induction false} SameAvailable(order: seq<string>, a: map<string, Provider>, b: map<string, Provider>)
    requires forall i :: 0 <= i < |order| ==> order[i] in a && order[i] in b
    requires forall i :: 0 <= i < |order| ==> IsAvailable(a[order[i]]) == IsAvailable(b[order[i]])
    ensures Available(order, a) == Available(order, b)
  {
    if order != [] { SameAvailable(order[..|order| - 1], a, b); }
  }

  /** The same providers, of which the same are available. */
  predicate AlikeAvailable(s: Router, t: Router) {
    && t.order == s.order && t.providers.Keys == s.providers.Keys
    && forall n :: n in s.providers ==> IsAvailable(t.providers[n]) == IsAvailable(s.providers[n])
  }

  lemma BookingKeepsStatus(s: Router, n: string, tokens: int, cost: real, elapsed: real)
    requires n in s.providers
    ensures AlikeAvailable(s, Completed(s, n, tokens, cost, elapsed)) && AlikeAvailable(s, Failed(s, n))
  {
  }

  lemma DemotingKeepsAvailable(s: Router, cfg: Config, n: string)
    requires n in s.providers && IsAvailable(s.providers[n])
    ensures AlikeAvailable(s, Demoted(s, cfg, n))
  {
  }

  /** Routing makes nobody available or unavailable. */
  lemma RoutingKeepsStatus(s: Router, cfg: Config, req: Request, exec: Execution, elapsed: real)
    requires Wf(s)
    ensures AlikeAvailable(s, Routed(s, cfg, req, exec, elapsed)) && Wf(Routed(s, cfg, req, exec, elapsed))
  {
    var n, t := Select(s, cfg, req), Advanced(s, cfg, req);
    if n.Some? {
      match exec
      case Returned(_, tokens, cost) => BookingKeepsStatus(t, n.value, tokens, cost, elapsed);
      case Raised =>
        BookingKeepsStatus(t, n.value, 0, 0.0, elapsed);
        DemotingKeepsAvailable(Failed(t, n.value), cfg, n.value);
    }
  }

  lemma RoutingKeepsAvailable(s: Router, cfg: Config, req: Request, exec: Execution, elapsed: real)
    requires Wf(s)
    ensures var t := Routed(s, cfg, req, exec, elapsed);
            Wf(t) && Available(t.order, t.providers) == Available(s.order, s.providers)
  {
    RoutingKeepsStatus(s, cfg, req, exec, elapsed);
    SameAvailable(s.order, s.providers, Routed(s, cfg, req, exec, elapsed).providers);
  }

  /** Number `k` of the names taken one after the other, over and over. */
  function Turn(names: seq<string>, k: nat): string
    requires names != []
  {
    if k < |names| then names[k] else Turn(names, k - |names|)
  }

  lemma {:induction false} TurnIsMod(names: seq<string>, k: nat)
    requires names != []
    ensures Turn(names, k) == names[k % |names|]
    decreases k
  {
    if k < |names| {
      Euclid(k, 0, k, |names|);
    } else {
      TurnIsMod(names, k - |names|);
      ModStep(k - |names|, 0, |names|);
    }
  }

  /** A round-robin choice takes the provider at the index and moves the index on by one. */
  lemma RoundRobinStep(s: Router, cfg: Config, req: Request, exec: Execution, elapsed: real)
    requires Wf(s) && cfg.strategy == RoundRobin && req.preferred == "" && Available(s.order, s.providers) != []
    ensures Select(s, cfg, req) == Some(Turn(Available(s.order, s.providers), s.rrIndex))
    ensures Routed(s, cfg, req, exec, elapsed).rrIndex == s.rrIndex + 1
  {
    TurnIsMod(Available(s.order, s.providers), s.rrIndex);
  }

  lemma TurnStep(s: Router, cfg: Config, op: Op, t: Router, pick: Option<string>, names: seq<string>)
    requires AnonymousStep(s, cfg, op, t, pick) && cfg.strategy == RoundRobin
    requires names == Available(s.order, s.providers) && names != []
    ensures Wf(t) && Available(t.order, t.providers) == names && t.rrIndex == s.rrIndex + 1
    ensures pick == Some(Turn(names, s.rrIndex))
  {
    RoundRobinStep(s, cfg, op.request, op.exec, op.elapsed);
    RoutingKeepsAvailable(s, cfg, op.request, op.exec, op.elapsed);
  }

  /** Request `k` meets the same available providers as the first. */
  lemma {:induction false} SameNames(states: seq<Router>, cfg: Config, run: seq<Op>, served: seq<Option<string>>,
                                     names: seq<string>, k: nat)
    requires Anonymous(states, cfg, run, served, k) && cfg.strategy == RoundRobin && Wf(states[0])
    requires names == Available(states[0].order, states[0].providers) && names != []
    ensures Wf(states[k]) && Available(states[k].order, states[k].providers) == names
  {
    if k > 0 {
      SameNames(states, cfg, run, served, names, k - 1);
      TurnStep(states[k - 1], cfg, run[k - 1], states[k], served[k - 1], names);
    }
  }

  /** It goes to the provider at the index, and moves that on by one. */
  lemma TurnOf(states: seq<Router>, cfg: Config, run: seq<Op>, served: seq<Option<string>>, names: seq<string>, k: nat)
    requires Anonymous(states, cfg, run, served, k + 1) && cfg.strategy == RoundRobin && Wf(states[0])
    requires names == Available(states[0].order, states[0].providers) && names != []
    ensures states[k + 1].rrIndex == states[k].rrIndex + 1 && served[k] == Some(Turn(names, states[k].rrIndex))
  {
    SameNames(states, cfg, run, served, names, k);
    TurnStep(states[k], cfg, run[k], states[k + 1], served[k], names);
  }

  /** Indices that each move on by one, and names taken at them, are taken in turn. */
  lemma {:induction false} TakenInTurn(served: seq<Option<string>>, index: seq<nat>, names: seq<string>, k: nat)
    requires names != [] && |index| == |served| + 1 && k <= |served|
    requires forall i: nat :: i < |served| ==> index[i + 1] == index[i] + 1
    requires forall i: nat :: i < |served| ==> served[i] == Some(Turn(names, index[i]))
    ensures index[k] == index[0] + k && InTurn(served[..k], names, index[0])
  {
    if k > 0 {
      TakenInTurn(served, index, names, k - 1);
      assert index[k - 1 + 1] == index[k - 1] + 1;
      assert served[..k] == served[..k - 1] + [served[k - 1]];
    }
  }

  /** The names of a list taken one after the other, over and over, from number `a` on. */
  predicate InTurn(served: seq<Option<string>>, names: seq<string>, a: nat) {
    names != [] && forall k: nat :: k < |served| ==> served[k] == Some(Turn(names, a + k))
  }

  lemma ServedInTurn(states: seq<Router>, cfg: Config, run: seq<Op>, served: seq<Option<string>>, names: seq<string>)
    requires Anonymous(states, cfg, run, served, |run|) && cfg.strategy == RoundRobin && Wf(states[0])
    requires names == Available(states[0].order, states[0].providers) && names != []
    ensures InTurn(served, names, states[0].rrIndex)
  {
    var index := seq(|states|, (i: nat) requires i < |states| => states[i].rrIndex);
    forall i: nat | i < |served|
      ensures index[i + 1] == index[i] + 1 && served[i] == Some(Turn(names, index[i]))
    {
      AnonymousPrefix(states, cfg, run, served, i + 1, |run|);
      TurnOf(states, cfg, run, served, names, i);
    }
    TakenInTurn(served, index, names, |served|);
    assert served[..|served|] == served;
  }

  predicate Distinct(names: seq<string>) {
    forall i, j :: 0 <= i < j < |names| ==> names[i] != names[j]
  }

  lemma {:induction false} AvailableDistinct(order: seq<string>, providers: map<string, Provider>)
    requires (forall i :: 0 <= i < |order| ==> order[i] in providers) && Distinct(order)
    ensures Distinct(Available(order, providers))
  {
    if order != [] {
      var front, last := order[..|order| - 1], order[|order| - 1];
      AvailableDistinct(front, providers);
      assert last !in front;
      var names := Available(front, providers);
      assert forall i :: 0 <= i < |names| ==> names[i] in front;
      assert Available(order, providers) == names + if IsAvailable(providers[last]) then [last] else [];
    }
  }

  /** How many providers are available. */
  function AvailableSet(s: Router): set<string> {
    set n | n in s.providers && IsAvailable(s.providers[n])
  }

  lemma {:induction false} SizeOfDistinct(names: seq<string>, all: set<string>)
    requires Distinct(names) && forall n :: n in names <==> n in all
    ensures |names| == |all|
  {
    if names == [] {
      assert all == {};
    } else {
      var last := |names| - 1;
      assert names == names[..last] + [names[last]];
      assert names[last] !in names[..last];
      SizeOfDistinct(names[..last], all - {names[last]});
    }
  }

  lemma AvailableIsSet(s: Router)
    requires Wf(s)
    ensures var names := Available(s.order, s.providers);
            Distinct(names) && (forall n :: n in names <==> n in AvailableSet(s)) && |names| == |AvailableSet(s)|
  {
    AvailableDistinct(s.order, s.providers);
    SizeOfDistinct(Available(s.order, s.providers), AvailableSet(s));
  }

  /** A whole round of turns takes every name once, and then starts over. */
  lemma EachOnce(served: seq<Option<string>>, names: seq<string>, a: nat, i: nat)
    requires InTurn(served, names, a) && Distinct(names) && i + |names| <= |served|
    ensures var m := |names|;
            && (forall k :: i <= k < i + m ==> served[k].Some? && served[k].value in names)
            && (forall x :: x in names ==> exists k :: i <= k < i + m && served[k] == Some(x))
            && (forall k, l :: i <= k < l < i + m ==> served[k] != served[l])
            && (i + m < |served| ==> served[i + m] == served[i])
  {
    var m := |names|;
    forall x | x in names ensures exists k :: i <= k < i + m && served[k] == Some(x) {
      var p :| 0 <= p < m && names[p] == x;
      var d := ModHits(a + i, p, m);
      TurnIsMod(names, a + (i + d));
      assert served[i + d] == Some(x);
    }
    forall k, l | i <= k < l < i + m ensures served[k] != served[l] {
      ModStep(a + k, l - k, m);
      TurnIsMod(names, a + k);
      TurnIsMod(names, a + l);
      assert (a + k) % m != (a + l) % m;
    }
    forall k | i <= k < i + m ensures served[k].value in names { TurnIsMod(names, a + k); }
    ModStep(a + i, 0, m);
    TurnIsMod(names, a + i);
    TurnIsMod(names, a + i + m);
  }

  /** From number `i` on as many turns as there are names take each name once, and the next one starts over. */
  ghost predicate FullRound(served: seq<Option<string>>, all: set<string>, i: nat)
    requires i + |all| <= |served|
  {
    var m := |all|;
    && (forall k :: i <= k < i + m ==> served[k].Some? && served[k].value in all)
    && (forall n :: n in all ==> exists k :: i <= k < i + m && served[k] == Some(n))
    && (forall k, l :: i <= k < l < i + m ==> served[k] != served[l])
    && (i + m < |served| ==> served[i + m] == served[i])
  }

  /**
    Round robin: over any run of requests that name no preferred provider, whatever their outcomes,
    as many consecutive requests as there are available providers go to all of these, each once,
    and the next one starts over in the same order.
  */
  lemma RoundRobinTakesTurns(states: seq<Router>, cfg: Config, run: seq<Op>, served: seq<Option<string>>)
    requires Anonymous(states, cfg, run, served, |run|) && cfg.strategy == RoundRobin && Wf(states[0])
    requires AvailableSet(states[0]) != {}
    ensures forall i: nat :: i + |AvailableSet(states[0])| <= |served| ==> FullRound(served, AvailableSet(states[0]), i)
  {
    var names := Available(states[0].order, states[0].providers);
    AvailableIsSet(states[0]);
    ServedInTurn(states, cfg, run, served, names);
    RoundsOf(served, names, AvailableSet(states[0]), states[0].rrIndex);
  }

  lemma RoundsOf(served: seq<Option<string>>, names: seq<string>, all: set<string>, a: nat)
    requires InTurn(served, names, a) && Distinct(names) && |names| == |all| && forall n :: n in names <==> n in all
    ensures forall i: nat :: i + |all| <= |served| ==> FullRound(served, all, i)
  {
    forall i: nat | i + |all| <= |served| ensures FullRound(served, all, i) { EachOnce(served, names, a, i); }
  }

  // ----- What a call books

  /** A routed call is one request of its provider, a failure exactly if it raised, and changes nobody else. */
  lemma RouteBooks(s: Router, cfg: Config, req: Request, exec: Execution, elapsed: real)
    requires Wf(s) && Select(s, cfg, req).Some?
    ensures var t, n := Routed(s, cfg, req, exec, elapsed), Select(s, cfg, req).value;
            && n in s.providers && n in t.providers
            && t.totalRequests == s.totalRequests + 1 && t.providers[n].total == s.providers[n].total + 1
            && t.totalFailures == s.totalFailures + (if exec.Raised? then 1 else 0)
            && t.providers[n].failed == s.providers[n].failed + (if exec.Raised? then 1 else 0)
            && t.totalTokens == s.totalTokens + (if exec.Returned? then exec.tokens else 0)
            && t.totalCost == s.totalCost + (if exec.Returned? then exec.cost else 0.0)
            && (forall m :: m in s.providers && m != n ==> m in t.providers && t.providers[m] == s.providers[m])
  {
  }

  /** Only a raised call changes a status: to DEGRADED, exactly when failed over total is above the threshold. */
  lemma RaisedCallDemotes(s: Router, cfg: Config, req: Request, exec: Execution, elapsed: real)
    requires Wf(s) && Select(s, cfg, req).Some?
    ensures var n := Select(s, cfg, req).value;
            var p, q := s.providers[n], Routed(s, cfg, req, exec, elapsed).providers[n];
            q.status == if exec.Raised? && (p.failed + 1) as real / (p.total + 1) as real > cfg.failoverThreshold
                        then Degraded else p.status
  {
  }

  function Power(x: real, k: nat): real {
    if k == 0 then 1.0 else x * Power(x, k - 1)
  }

  /** The latency after `k` completions that each took the same time. */
  function LatencyAfter(s: Router, n: string, elapsed: real, k: nat): (t: Router)
    requires n in s.providers
    ensures n in t.providers
  {
    if k == 0 then s else Completed(LatencyAfter(s, n, elapsed, k - 1), n, 0, 0.0, elapsed)
  }

  /** The average latency closes in on a steady one by a tenth of the distance each time. */
  lemma {:induction false} LatencyConverges(s: Router, n: string, elapsed: real, k: nat)
    requires n in s.providers
    ensures LatencyAfter(s, n, elapsed, k).providers[n].avgLatency - elapsed ==
            Power(0.9, k) * (s.providers[n].avgLatency - elapsed)
  {
    if k > 0 {
      LatencyConverges(s, n, elapsed, k - 1);
      var d := s.providers[n].avgLatency - elapsed;
      assert Power(0.9, k) * d == 0.9 * (Power(0.9, k - 1) * d);
    }
  }

  /** How many racers raised before the first success. */
  function RaisedBefore(finished: seq<Finish>): nat
    decreases |finished|
  {
    if finished == [] || (finished[0].exec.Returned? && finished[0].exec.success) then 0
    else (if finished[0].exec.Raised? then 1 else 0) + RaisedBefore(finished[1..])
  }

  /** A race books its first success and the failures that were seen before it, and nothing else. */
  lemma {:induction false} RaceBooks(s: Router, racers: seq<string>, finished: seq<Finish>)
    requires Finishes(finished, |racers|) && forall i :: 0 <= i < |racers| ==> racers[i] in s.providers
    ensures var t, w := Raced(s, racers, finished), WinnerOf(finished);
            && t.totalFailures == s.totalFailures + RaisedBefore(finished)
            && t.totalRequests == s.totalRequests + RaisedBefore(finished) + (if w.Some? then 1 else 0)
            && t.totalTokens == s.totalTokens + (if w.Some? then finished[w.value].exec.tokens else 0)
            && t.totalCost == s.totalCost + (if w.Some? then finished[w.value].exec.cost else 0.0)
    decreases |finished|
  {
    if finished != [] && !Wins(finished[0]) {
      var f := finished[0];
      RaceBooks(if f.exec.Raised? then Failed(s, racers[f.racer]) else s, racers, finished[1..]);
    }
  }

  // ----- The router as it runs

  datatype RaceOutcome = Winner(name: string) | AllFailed | NoRacers | TimedOut

  class RouterCore {
    const cfg: Config
    var order: seq<string>
    var providers: map<string, Provider>
    var rrIndex: nat
    var totalRequests: nat
    var totalFailures: nat
    var totalTokens: int
    var totalCost: real

    ghost function View(): Router
      reads this
    {
      Router(order, providers, rrIndex, totalRequests, totalFailures, totalTokens, totalCost)
    }

    ghost predicate Valid()
      reads this
    {
      Inv(View())
    }

    constructor (cfg: Config)
      ensures Valid() && this.cfg == cfg && View() == EMPTY_ROUTER
    {
      this.cfg := cfg;
      order, providers, rrIndex := [], map[], 0;
      totalRequests, totalFailures, totalTokens, totalCost := 0, 0, 0, 0.0;
    }

    method RegisterProvider(name: string, p: Provider)
      requires Valid()
      modifies this`order, this`providers
      ensures Wf(View()) && View() == Registered(old(View()), name, p)
      ensures name !in old(providers) && p.total == 0 && p.failed == 0 ==> Valid()
    {
      ghost var before := View();
      if name !in providers { order := order + [name]; }
      providers := providers[name := p];
      assert View() == Registered(before, name, p);
      RegisteredWf(before, name, p);
      if name !in before.providers { NewLedger(before, name, p); }
    }

    method SelectProvider(req: Request) returns (choice: Option<string>)
      requires Valid()
      modifies this`rrIndex
      ensures choice == Select(old(View()), cfg, req) && View() == Advanced(old(View()), cfg, req)
    {
      var names := Available(order, providers);
      if names == [] { return None; }
      if req.preferred != "" && req.preferred in names { return Some(req.preferred); }
      var s := Router(order, providers, rrIndex, totalRequests, totalFailures, totalTokens, totalCost);
      choice := Some(Choose(s, cfg, req, names));
      if cfg.strategy == RoundRobin { rrIndex := rrIndex + 1; }
    }

    method RecordCompleted(n: string, tokens: int, cost: real, elapsed: real)
      requires n in providers
      modifies this`totalRequests, this`totalTokens, this`totalCost, this`providers
      ensures View() == Completed(old(View()), n, tokens, cost, elapsed)
    {
      var p := providers[n];
      totalRequests := totalRequests + 1;
      totalTokens := totalTokens + tokens;
      totalCost := totalCost + cost;
      providers := providers[n := p.(total := p.total + 1, avgLatency := p.avgLatency * 0.9 + elapsed * 0.1)];
    }

    method RecordFailed(n: string)
      requires n in providers
      modifies this`totalRequests, this`totalFailures, this`providers
      ensures View() == Failed(old(View()), n)
    {
      var p := providers[n];
      totalRequests := totalRequests + 1;
      totalFailures := totalFailures + 1;
      providers := providers[n := p.(total := p.total + 1, failed := p.failed + 1)];
    }

    /** A failed execution, and the demotion it may cause. */
    method RecordAndDemote(n: string)
      requires n in providers
      modifies this`totalRequests, this`totalFailures, this`providers
      ensures View() == Demoted(Failed(old(View()), n), cfg, n)
    {
      RecordFailed(n);
      if FailureRate(providers[n]) > cfg.failoverThreshold {
        providers := providers[n := providers[n].(status := Degraded)];
      }
    }

    method Route(req: Request, exec: Execution, elapsed: real) returns (chosen: Option<string>, success: bool)
      requires Valid()
      modifies this
      ensures Valid() && View() == Apply(old(View()), cfg, Op.Route(req, exec, elapsed))
      ensures chosen == Select(old(View()), cfg, req)
      ensures success <==> chosen.Some? && exec.Returned? && exec.success
    {
      ApplyInv(View(), cfg, Op.Route(req, exec, elapsed));
      chosen := SelectProvider(req);
      if chosen.None? { return chosen, false; }
      match exec {
        case Returned(ok, tokens, cost) =>
          RecordCompleted(chosen.value, tokens, cost, elapsed);
          return chosen, ok;
        case Raised =>
          RecordAndDemote(chosen.value);
          return chosen, false;
      }
    }

    /** Looks at the finished executions in turn, until one succeeds. */
    method TakeFirst(racers: seq<string>, finished: seq<Finish>) returns (winner: Option<nat>)
      requires Finishes(finished, |racers|) && forall k :: 0 <= k < |racers| ==> racers[k] in providers
      modifies this`totalRequests, this`totalFailures, this`totalTokens, this`totalCost, this`providers
      ensures View() == Raced(old(View()), racers, finished) && winner == WinnerOf(finished)
    {
      ghost var all := Raced(View(), racers, finished);
      var i := 0;
      while i < |finished|
        invariant 0 <= i <= |finished| && forall k :: 0 <= k < |racers| ==> racers[k] in providers
        invariant all == Raced(View(), racers, finished[i..])
        invariant forall k :: 0 <= k < i ==> !Wins(finished[k])
      {
        var f := finished[i];
        assert finished[i..][0] == f && finished[i..][1..] == finished[i + 1..];
        if Wins(f) {
          RecordCompleted(racers[f.racer], f.exec.tokens, f.exec.cost, f.elapsed);
          return Some(i);
        }
        if f.exec.Raised? { RecordFailed(racers[f.racer]); }
        i := i + 1;
      }
      return None;
    }

    /** `timedOut` says whether the race's deadline passes after the finished executions. */
    method RouteRace(names: seq<string>, finished: seq<Finish>, timedOut: bool) returns (outcome: RaceOutcome)
      requires Valid() && Finishes(finished, |Racers(View(), names)|)
      modifies this
      ensures Valid() && View() == Apply(old(View()), cfg, Op.RouteRace(names, finished))
      ensures var racers := Racers(old(View()), names);
              outcome == if racers == [] then NoRacers
                         else if WinnerOf(finished).Some? then Winner(racers[finished[WinnerOf(finished).value].racer])
                         else if timedOut then TimedOut else AllFailed
    {
      ApplyInv(View(), cfg, Op.RouteRace(names, finished));
      var s := Router(order, providers, rrIndex, totalRequests, totalFailures, totalTokens, totalCost);
      var racers := Racers(s, names);
      if racers == [] { return NoRacers; }
      var w := TakeFirst(racers, finished);
      if w.Some? { return Winner(racers[finished[w.value].racer]); }
      return if timedOut then TimedOut else AllFailed;
    }

    method CheckEach()
      requires Wf(View())
      modifies this`providers
      ensures View() == HealthChecked(old(View()))
    {
      ghost var was := providers;
      var i := 0;
      while i < |order|
        invariant 0 <= i <= |order| && providers.Keys == was.Keys
        invariant forall k :: 0 <= k < |order| ==>
                    providers[order[k]] == if k < i then Checked(was[order[k]]) else was[order[k]]
      {
        providers := providers[order[i] := Checked(providers[order[i]])];
        i := i + 1;
      }
      assert forall n :: n in was ==> n in order;
    }

    method HealthCheckAll()
      requires Valid()
      modifies this`providers
      ensures Valid() && View() == Apply(old(View()), cfg, Op.HealthCheckAll)
    {
      ApplyInv(View(), cfg, Op.HealthCheckAll);
      CheckEach();
    }
  }
}
