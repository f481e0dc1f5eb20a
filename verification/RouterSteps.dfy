/**
  The provider router under threads: calls, races and health checks that overlap.

  Booking a finished call happens under the router's lock and is one step.  Selecting a provider,
  executing, comparing the failure rate with the threshold and writing a status are steps of their
  own, because the program does them outside the lock.  A run is any list of steps of any number of
  calls, so every interleaving is covered.
*/
module RouterSteps {
  import opened Outcomes
  import opened RouterCore

  /** Where a call, race or health check in flight stands. */
  datatype Call =
    | Choosing(request: Request, names: seq<string>)        // has listed the available providers
    | Executing(name: string)
    | Judging(name: string)                                 // failed and booked, rate not yet compared
    | Demoting(name: string)                                // rate above the threshold, status not yet written
    | Racing(racers: seq<string>, open: set<nat>)           // `open` are the positions not yet looked at
    | Checking(left: seq<string>)
    | Marking(name: string, verdict: Status, left: seq<string>)

  datatype Shared = Shared(router: Router, calls: map<nat, Call>)

  datatype Action =
    | Register(name: string, provider: Provider)
    | StartRoute(id: nat, request: Request)
    | Pick(id: nat)
    | Finish(id: nat, exec: Execution, elapsed: real)
    | Judge(id: nat)
    | Demote(id: nat)
    | StartRace(id: nat, names: seq<string>)
    | RaceFinish(id: nat, racer: nat, exec: Execution, elapsed: real)
    | RaceEnd(id: nat)
    | StartCheck(id: nat)
    | Look(id: nat)
    | Mark(id: nat)

  // ----- The machine

  predicate Known(router: Router, names: seq<string>) {
    forall i :: 0 <= i < |names| ==> names[i] in router.providers
  }

  /** The providers a call in flight works on are registered. */
  predicate CallOk(router: Router, c: Call) {
    match c
    case Choosing(_, names) => names != [] && Known(router, names)
    case Executing(n) => n in router.providers
    case Judging(n) => n in router.providers
    case Demoting(n) => n in router.providers
    case Racing(racers, open) => Known(router, racers) && forall k :: k in open ==> k < |racers|
    case Checking(left) => Known(router, left)
    case Marking(n, _, left) => n in router.providers && Known(router, left)
  }

  /** The books balance and every call in flight works on registered providers. */
  predicate SharedInv(s: Shared) {
    Inv(s.router) && forall id :: id in s.calls ==> CallOk(s.router, s.calls[id])
  }

  predicate Enabled(s: Shared, a: Action) {
    match a
    case Register(name, p) => name !in s.router.providers && p.total == 0 && p.failed == 0
    case StartRoute(id, _) => id !in s.calls
    case Pick(id) => id in s.calls && s.calls[id].Choosing?
    case Finish(id, _, _) => id in s.calls && s.calls[id].Executing?
    case Judge(id) => id in s.calls && s.calls[id].Judging?
    case Demote(id) => id in s.calls && s.calls[id].Demoting?
    case StartRace(id, _) => id !in s.calls
    case RaceFinish(id, k, _, _) => id in s.calls && s.calls[id].Racing? && k in s.calls[id].open
    case RaceEnd(id) => id in s.calls && s.calls[id].Racing?
    case StartCheck(id) => id !in s.calls
    case Look(id) => id in s.calls && s.calls[id].Checking?
    case Mark(id) => id in s.calls && s.calls[id].Marking?
  }

  function WithStatus(r: Router, n: string, status: Status): Router
    requires n in r.providers
  {
    r.(providers := r.providers[n := r.providers[n].(status := status)])
  }

  /** The router after a step: only bookings, picks and status writes change it. */
  function RouterAfter(s: Shared, cfg: Config, a: Action): Router
    requires SharedInv(s) && Enabled(s, a)
  {
    var r := s.router;
    match a
    case Register(name, p) => Registered(r, name, p)
    case Pick(_) => if cfg.strategy == RoundRobin then r.(rrIndex := r.rrIndex + 1) else r
    case Finish(id, exec, elapsed) =>
      assert CallOk(r, s.calls[id]);
      if exec.Raised? then Failed(r, s.calls[id].name)
      else Completed(r, s.calls[id].name, exec.tokens, exec.cost, elapsed)
    case Demote(id) =>
      assert CallOk(r, s.calls[id]);
      WithStatus(r, s.calls[id].name, Degraded)
    case RaceFinish(id, k, exec, elapsed) =>
      assert CallOk(r, s.calls[id]);
      var n := s.calls[id].racers[k];
      if exec.Raised? then Failed(r, n)
      else if exec.success then Completed(r, n, exec.tokens, exec.cost, elapsed) else r
    case Mark(id) =>
      assert CallOk(r, s.calls[id]);
      WithStatus(r, s.calls[id].name, s.calls[id].verdict)
    case _ => r
  }

  function Positions(n: nat): (r: set<nat>)
    ensures forall k: nat :: k in r <==> k < n
  {
    if n == 0 then {} else Positions(n - 1) + {n - 1}
  }

  /** Where the acting call stands after the step; none when it is over. */
  function CallAfter(s: Shared, cfg: Config, a: Action): Option<Call>
    requires SharedInv(s) && Enabled(s, a) && !a.Register?
  {
    var r := s.router;
    match a
    case StartRoute(_, req) =>
      var names := Available(r.order, r.providers);
      if names == [] then None
      else if req.preferred != "" && req.preferred in names then Some(Executing(req.preferred))
      else Some(Choosing(req, names))
    case Pick(id) =>
      assert CallOk(r, s.calls[id]);
      Some(Executing(Choose(r, cfg, s.calls[id].request, s.calls[id].names)))
    case Finish(id, exec, _) => if exec.Raised? then Some(Judging(s.calls[id].name)) else None
    case Judge(id) =>
      assert CallOk(r, s.calls[id]);
      var n := s.calls[id].name;
      if FailureRate(r.providers[n]) > cfg.failoverThreshold then Some(Demoting(n)) else None
    case Demote(_) => None
    case StartRace(_, names) =>
      var racers := Racers(r, names);
      if racers == [] then None else Some(Racing(racers, Positions(|racers|)))
    case RaceFinish(id, k, exec, _) =>
      if exec.Returned? && exec.success then None else Some(s.calls[id].(open := s.calls[id].open - {k}))
    case RaceEnd(_) => None
    case StartCheck(_) => Some(Checking(r.order))
    case Look(id) =>
      assert CallOk(r, s.calls[id]);
      var left := s.calls[id].left;
      if left == [] then None else Some(Marking(left[0], Checked(r.providers[left[0]]).status, left[1..]))
    case Mark(id) => Some(Checking(s.calls[id].left))
  }

  function Next(s: Shared, cfg: Config, a: Action): Shared
    requires SharedInv(s) && Enabled(s, a)
  {
    var router := RouterAfter(s, cfg, a);
    if a.Register? then Shared(router, s.calls)
    else
      var c := CallAfter(s, cfg, a);
      Shared(router, if c.Some? then s.calls[a.id := c.value] else s.calls - {a.id})
  }

  // ----- The books balance in every interleaving

  lemma WithStatusInv(r: Router, n: string, status: Status)
    requires Inv(r) && n in r.providers
    ensures Inv(WithStatus(r, n, status))
  {
    TotalsSame(r.order, r.providers, WithStatus(r, n, status).providers);
  }

  lemma RouterStaysInv(s: Shared, cfg: Config, a: Action)
    requires SharedInv(s) && Enabled(s, a)
    ensures Inv(RouterAfter(s, cfg, a))
  {
    var r := s.router;
    match a
    case Register(name, p) =>
      RegisteredWf(r, name, p);
      NewLedger(r, name, p);
    case Finish(id, exec, elapsed) =>
      assert CallOk(r, s.calls[id]);
      var n := s.calls[id].name;
      if exec.Raised? { FailedInv(r, n); } else { CompletedInv(r, n, exec.tokens, exec.cost, elapsed); }
    case Demote(id) =>
      assert CallOk(r, s.calls[id]);
      WithStatusInv(r, s.calls[id].name, Degraded);
    case RaceFinish(id, k, exec, elapsed) =>
      assert CallOk(r, s.calls[id]);
      var n := s.calls[id].racers[k];
      if exec.Raised? { FailedInv(r, n); } else if exec.success { CompletedInv(r, n, exec.tokens, exec.cost, elapsed); }
    case Mark(id) =>
      assert CallOk(r, s.calls[id]);
      WithStatusInv(r, s.calls[id].name, s.calls[id].verdict);
    case _ =>
  }

  /** No step removes a provider. */
  lemma ProvidersStay(s: Shared, cfg: Config, a: Action)
    requires SharedInv(s) && Enabled(s, a)
    ensures s.router.providers.Keys <= RouterAfter(s, cfg, a).providers.Keys
  {
  }

  lemma CallStaysOk(s: Shared, cfg: Config, a: Action)
    requires SharedInv(s) && Enabled(s, a) && !a.Register?
    ensures CallAfter(s, cfg, a).Some? ==> CallOk(s.router, CallAfter(s, cfg, a).value)
  {
    if a.id in s.calls { assert CallOk(s.router, s.calls[a.id]); }
  }

  lemma OkInMore(r: Router, t: Router, c: Call)
    requires CallOk(r, c) && r.providers.Keys <= t.providers.Keys
    ensures CallOk(t, c)
  {
  }

  /** Every step of every interleaving keeps the books. */
  lemma NextInv(s: Shared, cfg: Config, a: Action)
    requires SharedInv(s) && Enabled(s, a)
    ensures SharedInv(Next(s, cfg, a))
  {
    var t := Next(s, cfg, a);
    RouterStaysInv(s, cfg, a);
    ProvidersStay(s, cfg, a);
    if !a.Register? { CallStaysOk(s, cfg, a); }
    forall id | id in t.calls ensures CallOk(t.router, t.calls[id]) { OkInMore(s.router, t.router, t.calls[id]); }
  }

  predicate IsRun(s: Shared, cfg: Config, run: seq<Action>)
    requires SharedInv(s)
    decreases |run|
  {
    run == [] || (Enabled(s, run[0]) && (NextInv(s, cfg, run[0]); IsRun(Next(s, cfg, run[0]), cfg, run[1..])))
  }

  function After(s: Shared, cfg: Config, run: seq<Action>): Shared
    requires SharedInv(s) && IsRun(s, cfg, run)
    decreases |run|
  {
    if run == [] then s
    else NextInv(s, cfg, run[0]); After(Next(s, cfg, run[0]), cfg, run[1..])
  }

  /** Conservation under threads: in every interleaving the totals equal the sums over the providers. */
  lemma {:induction false} BooksBalanceInterleaved(s: Shared, cfg: Config, run: seq<Action>)
    requires SharedInv(s) && IsRun(s, cfg, run)
    ensures SharedInv(After(s, cfg, run)) && Balanced(After(s, cfg, run).router)
    decreases |run|
  {
    if run != [] {
      NextInv(s, cfg, run[0]);
      BooksBalanceInterleaved(Next(s, cfg, run[0]), cfg, run[1..]);
    }
  }

  // ----- When a written-off provider stays written off

  /** The provider's ledger after one more call that did not raise no longer condemns it. */
  predicate Redeems(p: Provider) {
    FailureRate(p.(total := p.total + 1)) <= 0.8
  }

  /** The steps that bring a written-off provider back. */
  predicate Revives(s: Shared, a: Action, n: string)
    requires SharedInv(s) && Enabled(s, a) && n in s.router.providers
  {
    match a
    case Finish(id, exec, _) => s.calls[id].name == n && exec.Returned? && Redeems(s.router.providers[n])
    case RaceFinish(id, k, exec, _) =>
      assert CallOk(s.router, s.calls[id]);
      s.calls[id].racers[k] == n && exec.Returned? && exec.success && Redeems(s.router.providers[n])
    case Demote(id) => s.calls[id].name == n
    case Mark(id) => s.calls[id].name == n && s.calls[id].verdict != Unhealthy
    case _ => false
  }

  lemma RateAbove(p: Provider)
    ensures FailureRate(p) > 0.8 <==> p.total > 0 && 10 * p.failed > 8 * p.total
  {
    if p.total > 0 { QuotientAbove(p.failed as real, p.total as real); }
  }

  lemma QuotientAbove(a: real, b: real)
    requires b > 0.0
    ensures a / b > 0.8 <==> a > 0.8 * b
  {
    assert a == a / b * b;
    Larger(a / b, 0.8, b);
  }

  lemma Larger(x: real, y: real, b: real)
    requires b > 0.0
    ensures x > y <==> x * b > y * b
  {
    if x > y { assert (x - y) * b > 0.0; }
    if x <= y { assert (y - x) * b >= 0.0; }
  }

  /** One more failure does not redeem a provider. */
  lemma FailingStaysBad(p: Provider)
    requires FailureRate(p) > 0.8 && p.failed <= p.total
    ensures FailureRate(p.(total := p.total + 1, failed := p.failed + 1)) > 0.8
  {
    RateAbove(p);
    RateAbove(p.(total := p.total + 1, failed := p.failed + 1));
  }

  /** The ledger and status of a provider after a step. */
  lemma ProviderAfter(s: Shared, cfg: Config, a: Action, n: string)
    requires SharedInv(s) && Enabled(s, a) && WrittenOff(s.router, n)
    ensures n in RouterAfter(s, cfg, a).providers
    ensures WrittenOff(RouterAfter(s, cfg, a), n) <==> !Revives(s, a, n)
  {
    var p := s.router.providers[n];
    FailingStaysBad(p);
    if a.RaceFinish? { assert CallOk(s.router, s.calls[a.id]); }
  }

  /** Exactly which steps of an interleaving bring a written-off provider back. */
  lemma StaysWrittenOffIff(s: Shared, cfg: Config, a: Action, n: string)
    requires SharedInv(s) && Enabled(s, a) && WrittenOff(s.router, n)
    ensures WrittenOff(Next(s, cfg, a).router, n) <==> !Revives(s, a, n)
  {
    ProviderAfter(s, cfg, a, n);
  }

  ghost predicate OffThroughout(s: Shared, cfg: Config, run: seq<Action>, n: string)
    requires SharedInv(s) && IsRun(s, cfg, run)
    decreases |run|
  {
    && WrittenOff(s.router, n)
    && (run == [] || (NextInv(s, cfg, run[0]); OffThroughout(Next(s, cfg, run[0]), cfg, run[1..], n)))
  }

  ghost predicate NeverRevived(s: Shared, cfg: Config, run: seq<Action>, n: string)
    requires SharedInv(s) && IsRun(s, cfg, run) && n in s.router.providers
    decreases |run|
  {
    run == [] ||
    (&& !Revives(s, run[0], n)
     && (NextInv(s, cfg, run[0]);
         ProvidersStay(s, cfg, run[0]);
         NeverRevived(Next(s, cfg, run[0]), cfg, run[1..], n)))
  }

  /** So a provider stays written off in a run if and only if no step of it revives it. */
  lemma {:induction false} OffThroughoutIff(s: Shared, cfg: Config, run: seq<Action>, n: string)
    requires SharedInv(s) && IsRun(s, cfg, run) && WrittenOff(s.router, n)
    ensures OffThroughout(s, cfg, run, n) <==> NeverRevived(s, cfg, run, n)
    decreases |run|
  {
    if run != [] {
      var t := Next(s, cfg, run[0]);
      NextInv(s, cfg, run[0]);
      ProvidersStay(s, cfg, run[0]);
      StaysWrittenOffIff(s, cfg, run[0], n);
      if WrittenOff(t.router, n) { OffThroughoutIff(t, cfg, run[1..], n); }
    }
  }

  /** The call is about to write another status than UNHEALTHY. */
  predicate WillRevive(c: Call, n: string) {
    c == Demoting(n) || (c.Marking? && c.name == n && c.verdict != Unhealthy)
  }

  /** Written off, and no call in flight is about to bring the provider back. */
  predicate Settled(s: Shared, n: string) {
    WrittenOff(s.router, n) && forall id :: id in s.calls ==> !WillRevive(s.calls[id], n)
  }

  /** A call on the provider redeems it by returning, or has failed and is judged above the threshold. */
  predicate Unsettles(s: Shared, cfg: Config, a: Action, n: string)
    requires SharedInv(s) && Enabled(s, a) && n in s.router.providers
  {
    match a
    case Finish(id, exec, _) => s.calls[id].name == n && exec.Returned? && Redeems(s.router.providers[n])
    case RaceFinish(id, k, exec, _) =>
      assert CallOk(s.router, s.calls[id]);
      s.calls[id].racers[k] == n && exec.Returned? && exec.success && Redeems(s.router.providers[n])
    case Judge(id) => s.calls[id].name == n && FailureRate(s.router.providers[n]) > cfg.failoverThreshold
    case _ => false
  }

  lemma SettledStepIff(s: Shared, cfg: Config, a: Action, n: string)
    requires SharedInv(s) && Enabled(s, a) && Settled(s, n)
    ensures Settled(Next(s, cfg, a), n) <==> !Unsettles(s, cfg, a, n)
  {
    StaysWrittenOffIff(s, cfg, a, n);
    var t := Next(s, cfg, a);
    if !a.Register? {
      if a.id in s.calls { assert !WillRevive(s.calls[a.id], n); }
      if a.id in t.calls { assert WillRevive(t.calls[a.id], n) <==> a.Judge? && Unsettles(s, cfg, a, n); }
    }
  }

  ghost predicate SettledThroughout(s: Shared, cfg: Config, run: seq<Action>, n: string)
    requires SharedInv(s) && IsRun(s, cfg, run)
    decreases |run|
  {
    && Settled(s, n)
    && (run == [] || (NextInv(s, cfg, run[0]); SettledThroughout(Next(s, cfg, run[0]), cfg, run[1..], n)))
  }

  ghost predicate NeverUnsettled(s: Shared, cfg: Config, run: seq<Action>, n: string)
    requires SharedInv(s) && IsRun(s, cfg, run) && n in s.router.providers
    decreases |run|
  {
    run == [] ||
    (&& !Unsettles(s, cfg, run[0], n)
     && (NextInv(s, cfg, run[0]);
         ProvidersStay(s, cfg, run[0]);
         NeverUnsettled(Next(s, cfg, run[0]), cfg, run[1..], n)))
  }

  /**
    Exactly when a provider stays written off, read off the calls on it alone: over any run, no such
    call returns with a ledger that redeems it, and none that raised finds the failure rate above the
    failover threshold.
  */
  lemma {:induction false} StaysOffIff(s: Shared, cfg: Config, run: seq<Action>, n: string)
    requires SharedInv(s) && IsRun(s, cfg, run) && Settled(s, n)
    ensures SettledThroughout(s, cfg, run, n) <==> NeverUnsettled(s, cfg, run, n)
    decreases |run|
  {
    if run != [] {
      var t := Next(s, cfg, run[0]);
      NextInv(s, cfg, run[0]);
      ProvidersStay(s, cfg, run[0]);
      SettledStepIff(s, cfg, run[0], n);
      if Settled(t, n) { StaysOffIff(t, cfg, run[1..], n); }
    }
  }

  /** The call may still use the provider or change its status to another. */
  predicate Concerns(c: Call, n: string) {
    match c
    case Choosing(_, names) => n in names
    case Executing(m) => m == n
    case Judging(m) => m == n
    case Demoting(m) => m == n
    case Racing(racers, open) => exists k :: k in open && k < |racers| && racers[k] == n
    case Checking(_) => false
    case Marking(m, verdict, _) => m == n && verdict != Unhealthy
  }

  /** While a provider is written off no call newly gets hold of it. */
  lemma NoNewUse(s: Shared, cfg: Config, a: Action, n: string, id: nat)
    requires SharedInv(s) && Enabled(s, a) && WrittenOff(s.router, n)
    requires id in Next(s, cfg, a).calls && Concerns(Next(s, cfg, a).calls[id], n)
    ensures id in s.calls && Concerns(s.calls[id], n)
  {
    if !a.Register? && id == a.id {
      if id in s.calls { assert CallOk(s.router, s.calls[id]); }
      match a
      case RaceFinish(_, _, _, _) =>
        var k :| k in Next(s, cfg, a).calls[id].open && k < |s.calls[id].racers| && s.calls[id].racers[k] == n;
        assert k in s.calls[id].open;
      case _ =>
    }
  }

  /** Written off, and no call in flight has anything to do with the provider. */
  predicate Retired(s: Shared, n: string) {
    WrittenOff(s.router, n) && forall id :: id in s.calls ==> !Concerns(s.calls[id], n)
  }

  lemma RetiredStep(s: Shared, cfg: Config, a: Action, n: string)
    requires SharedInv(s) && Enabled(s, a) && Retired(s, n)
    ensures Retired(Next(s, cfg, a), n) && Next(s, cfg, a).router.providers[n] == s.router.providers[n]
  {
    if a.RaceFinish? {
      assert CallOk(s.router, s.calls[a.id]);
      assert !Concerns(s.calls[a.id], n);
    }
    StaysWrittenOffIff(s, cfg, a, n);
    forall id | id in Next(s, cfg, a).calls ensures !Concerns(Next(s, cfg, a).calls[id], n) {
      if Concerns(Next(s, cfg, a).calls[id], n) { NoNewUse(s, cfg, a, n, id); }
    }
  }

  /**
    For good: once the calls that were in flight when the provider was written off are over, it is
    never listed, chosen, raced or changed again, whatever overlaps with what.
  */
  lemma {:induction false} RetiredForGood(s: Shared, cfg: Config, run: seq<Action>, n: string)
    requires SharedInv(s) && IsRun(s, cfg, run) && Retired(s, n)
    ensures Retired(After(s, cfg, run), n)
    ensures After(s, cfg, run).router.providers[n] == s.router.providers[n]
    decreases |run|
  {
    if run != [] {
      NextInv(s, cfg, run[0]);
      RetiredStep(s, cfg, run[0], n);
      RetiredForGood(Next(s, cfg, run[0]), cfg, run[1..], n);
    }
  }

  // ----- A call that was in flight when its provider was written off

  /** The call raises, is booked, and its provider's rate is compared with the threshold. */
  function AfterLateFailure(s: Shared, cfg: Config, id: nat, elapsed: real): (t: Shared)
    requires SharedInv(s) && id in s.calls && s.calls[id].Executing?
    ensures SharedInv(t)
  {
    NextInv(s, cfg, Action.Finish(id, Raised, elapsed));
    var t := Next(s, cfg, Action.Finish(id, Raised, elapsed));
    NextInv(t, cfg, Judge(id));
    Next(t, cfg, Judge(id))
  }

  /**
    A late failure revives a written-off provider exactly when the failure rate is above the failover
    threshold: always with a threshold of at most 0.8 (the default is 0.5), never with one of at least 1.
  */
  lemma LateFailureRevivesIff(s: Shared, cfg: Config, id: nat, elapsed: real)
    requires SharedInv(s) && id in s.calls && s.calls[id].Executing? && WrittenOff(s.router, s.calls[id].name)
    ensures var n := s.calls[id].name;
            var p := s.router.providers[n];
            var t := AfterLateFailure(s, cfg, id, elapsed);
            var demotes := FailureRate(p.(total := p.total + 1, failed := p.failed + 1)) > cfg.failoverThreshold;
            && WrittenOff(t.router, n)
            && (Enabled(t, Demote(id)) <==> demotes)
            && (demotes ==> IsAvailable(Next(t, cfg, Demote(id)).router.providers[n]))
            && (cfg.failoverThreshold <= 0.8 ==> demotes)
            && (cfg.failoverThreshold >= 1.0 ==> !demotes)
  {
    assert CallOk(s.router, s.calls[id]);
    var p := s.router.providers[s.calls[id].name];
    FailingStaysBad(p);
    RateAtMostOne(p.(total := p.total + 1, failed := p.failed + 1));
    StaysWrittenOffIff(s, cfg, Action.Finish(id, Raised, elapsed), s.calls[id].name);
  }

  lemma RateAtMostOne(p: Provider)
    requires p.failed <= p.total
    ensures FailureRate(p) <= 1.0
  {
    if p.total > 0 {
      var a, b := p.failed as real, p.total as real;
      assert a == a / b * b;
      Larger(a / b, 1.0, b);
    }
  }

  const NOBODY: Shared := Shared(EMPTY_ROUTER, map[])

  ghost predicate Leads(s: Shared, cfg: Config, run: seq<Action>, t: Shared) {
    SharedInv(s) && IsRun(s, cfg, run) && After(s, cfg, run) == t
  }

  /** Some run leads from the one state to the other. */
  ghost predicate Reaches(s: Shared, cfg: Config, t: Shared) {
    exists run :: Leads(s, cfg, run, t)
  }

  lemma LeadsOn(s: Shared, cfg: Config, a: Action, run: seq<Action>, t: Shared)
    requires SharedInv(s) && Enabled(s, a) && Leads(Next(s, cfg, a), cfg, run, t)
    ensures Leads(s, cfg, [a] + run, t)
  {
    assert ([a] + run)[1..] == run;
  }

  lemma LeadsRest(s: Shared, cfg: Config, run: seq<Action>, t: Shared)
    requires Leads(s, cfg, run, t) && run != []
    ensures Enabled(s, run[0]) && Leads(Next(s, cfg, run[0]), cfg, run[1..], t)
  {
    NextInv(s, cfg, run[0]);
  }

  lemma {:induction false} Extend(s: Shared, cfg: Config, run: seq<Action>, t: Shared, a: Action)
    requires Leads(s, cfg, run, t) && SharedInv(t) && Enabled(t, a)
    ensures Leads(s, cfg, run + [a], Next(t, cfg, a))
    decreases |run|
  {
    if run == [] {
      assert run + [a] == [a];
      LeadsOnce(t, cfg, a);
    } else {
      LeadsRest(s, cfg, run, t);
      Extend(Next(s, cfg, run[0]), cfg, run[1..], t, a);
      LeadsOn(s, cfg, run[0], run[1..] + [a], Next(t, cfg, a));
      assert run + [a] == [run[0]] + (run[1..] + [a]);
    }
  }

  lemma LeadsOnce(s: Shared, cfg: Config, a: Action)
    requires SharedInv(s) && Enabled(s, a)
    ensures Leads(s, cfg, [a], Next(s, cfg, a))
  {
    NextInv(s, cfg, a);
    assert [a][1..] == [];
  }

  lemma Go(s: Shared, cfg: Config, t: Shared, a: Action)
    requires Reaches(s, cfg, t) && SharedInv(t) && Enabled(t, a)
    ensures Reaches(s, cfg, Next(t, cfg, a)) && SharedInv(Next(t, cfg, a))
  {
    var run :| Leads(s, cfg, run, t);
    NextInv(t, cfg, a);
    Extend(s, cfg, run, t, a);
  }

  lemma Stay(s: Shared, cfg: Config)
    requires SharedInv(s)
    ensures Reaches(s, cfg, s)
  {
    assert Leads(s, cfg, [], s);
  }

  lemma {:induction false} LeadsKeepsInv(s: Shared, cfg: Config, run: seq<Action>, t: Shared)
    requires Leads(s, cfg, run, t)
    ensures SharedInv(t)
  {
    BooksBalanceInterleaved(s, cfg, run);
  }

  /** The invariant holds wherever a run leads. */
  lemma ReachedInv(s: Shared, cfg: Config, t: Shared)
    requires Reaches(s, cfg, t)
    ensures SharedInv(t)
  {
    var run :| Leads(s, cfg, run, t);
    LeadsKeepsInv(s, cfg, run, t);
  }

  // ----- Calls that do not overlap

  /** The router after a call on a chosen provider has ended. */
  function Ended(r: Router, cfg: Config, n: string, exec: Execution, elapsed: real): Router
    requires n in r.providers
  {
    match exec
    case Returned(_, tokens, cost) => Completed(r, n, tokens, cost, elapsed)
    case Raised => Demoted(Failed(r, n), cfg, n)
  }

  lemma FinishOn(r: Router, calls: map<nat, Call>, cfg: Config, id: nat, n: string, exec: Execution, elapsed: real)
    requires SharedInv(Shared(r, calls)) && id in calls && calls[id] == Executing(n) && n in r.providers
    ensures Next(Shared(r, calls), cfg, Action.Finish(id, exec, elapsed)) ==
            if exec.Raised? then Shared(Failed(r, n), calls[id := Judging(n)])
            else Shared(Completed(r, n, exec.tokens, exec.cost, elapsed), calls - {id})
  {
  }

  lemma UninterruptedJudge(s: Shared, cfg: Config, r: Router, calls: map<nat, Call>, id: nat, n: string)
    requires Reaches(s, cfg, Shared(r, calls)) && SharedInv(Shared(r, calls))
    requires id in calls && calls[id] == Judging(n) && n in r.providers
    ensures Reaches(s, cfg, Shared(Demoted(r, cfg, n), calls - {id}))
  {
    Go(s, cfg, Shared(r, calls), Judge(id));
    if FailureRate(r.providers[n]) > cfg.failoverThreshold {
      var c := calls[id := Demoting(n)];
      Go(s, cfg, Shared(r, c), Demote(id));
      assert c - {id} == calls - {id};
    }
  }

  lemma UninterruptedFinish(s: Shared, cfg: Config, r: Router, calls: map<nat, Call>, id: nat, n: string,
                            exec: Execution, elapsed: real)
    requires Reaches(s, cfg, Shared(r, calls)) && SharedInv(Shared(r, calls))
    requires id in calls && calls[id] == Executing(n) && n in r.providers
    ensures Reaches(s, cfg, Shared(Ended(r, cfg, n, exec, elapsed), calls - {id}))
  {
    FinishOn(r, calls, cfg, id, n, exec, elapsed);
    Go(s, cfg, Shared(r, calls), Action.Finish(id, exec, elapsed));
    if exec.Raised? {
      var c := calls[id := Judging(n)];
      UninterruptedJudge(s, cfg, Failed(r, n), c, id, n);
      assert c - {id} == calls - {id};
    }
  }

  lemma ListsForRoute(s: Shared, cfg: Config, id: nat, req: Request)
    requires SharedInv(s) && id !in s.calls
    ensures var names := Available(s.router.order, s.router.providers);
            Next(s, cfg, StartRoute(id, req)) ==
            if names == [] then s
            else if req.preferred != "" && req.preferred in names
            then Shared(s.router, s.calls[id := Executing(req.preferred)])
            else Shared(s.router, s.calls[id := Choosing(req, names)])
  {
    assert s.calls - {id} == s.calls;
  }

  /** Selection that nothing overlaps with ends with the call on the provider that `route` selects. */
  lemma UninterruptedSelection(s: Shared, cfg: Config, id: nat, req: Request)
    requires SharedInv(s) && id !in s.calls
    ensures var n := Select(s.router, cfg, req);
            var t := Shared(Advanced(s.router, cfg, req),
                            if n.Some? then s.calls[id := Executing(n.value)] else s.calls);
            Reaches(s, cfg, t) && SharedInv(t)
  {
    Stay(s, cfg);
    ListsForRoute(s, cfg, id, req);
    Go(s, cfg, s, StartRoute(id, req));
    var names := Available(s.router.order, s.router.providers);
    if names != [] && !(req.preferred != "" && req.preferred in names) {
      Picks(s.router, s.calls, cfg, id, req, names);
      Go(s, cfg, Shared(s.router, s.calls[id := Choosing(req, names)]), Pick(id));
    }
  }

  lemma Picks(r: Router, calls: map<nat, Call>, cfg: Config, id: nat, req: Request, names: seq<string>)
    requires SharedInv(Shared(r, calls[id := Choosing(req, names)])) && names != []
    ensures Next(Shared(r, calls[id := Choosing(req, names)]), cfg, Pick(id)) ==
            Shared(if cfg.strategy == RoundRobin then r.(rrIndex := r.rrIndex + 1) else r,
                   calls[id := Executing(Choose(r, cfg, req, names))])
  {
    var n := Choose(r, cfg, req, names);
    assert calls[id := Choosing(req, names)][id := Executing(n)] == calls[id := Executing(n)];
  }

  /** What `route` does in one step, once it has selected. */
  lemma RoutedIs(r: Router, cfg: Config, req: Request, exec: Execution, elapsed: real)
    requires Wf(r)
    ensures var n := Select(r, cfg, req);
            Routed(r, cfg, req, exec, elapsed) ==
            if n.Some? then Ended(Advanced(r, cfg, req), cfg, n.value, exec, elapsed) else Advanced(r, cfg, req)
  {
  }

  lemma FinishesFor(s: Shared, cfg: Config, r: Router, calls: map<nat, Call>, id: nat, n: string,
                    exec: Execution, elapsed: real)
    requires id !in calls && n in r.providers && Reaches(s, cfg, Shared(r, calls[id := Executing(n)]))
    ensures Reaches(s, cfg, Shared(Ended(r, cfg, n, exec, elapsed), calls))
  {
    ReachedInv(s, cfg, Shared(r, calls[id := Executing(n)]));
    UninterruptedFinish(s, cfg, r, calls[id := Executing(n)], id, n, exec, elapsed);
    assert calls[id := Executing(n)] - {id} == calls;
  }

  /** A call that nothing overlaps with does to the router what `route` does in one step. */
  lemma UninterruptedRoute(s: Shared, cfg: Config, id: nat, req: Request, exec: Execution, elapsed: real)
    requires SharedInv(s) && id !in s.calls
    ensures Reaches(s, cfg, Shared(Routed(s.router, cfg, req, exec, elapsed), s.calls))
  {
    UninterruptedSelection(s, cfg, id, req);
    RoutedIs(s.router, cfg, req, exec, elapsed);
    var n := Select(s.router, cfg, req);
    if n.Some? { FinishesFor(s, cfg, Advanced(s.router, cfg, req), s.calls, id, n.value, exec, elapsed); }
  }

  /** The router after the listed providers have been checked. */
  function CheckedIn(r: Router, names: seq<string>): Router {
    r.(providers := map n | n in r.providers :: if n in names then Checked(r.providers[n]) else r.providers[n])
  }

  lemma CheckedInStep(r: Router, names: seq<string>)
    requires names != [] && names[0] in r.providers && names[0] !in names[1..]
    ensures CheckedIn(WithStatus(r, names[0], Checked(r.providers[names[0]]).status), names[1..]) == CheckedIn(r, names)
  {
    var n, t := names[0], WithStatus(r, names[0], Checked(r.providers[names[0]]).status);
    assert names == [n] + names[1..];
    assert t.providers[n] == Checked(r.providers[n]);
    assert t.providers.Keys == r.providers.Keys;
  }

  lemma {:induction false} UninterruptedLooks(s: Shared, cfg: Config, r: Router, calls: map<nat, Call>, id: nat,
                                              left: seq<string>)
    requires id !in calls
    requires Reaches(s, cfg, Shared(r, calls[id := Checking(left)]))
    requires forall i, j :: 0 <= i < j < |left| ==> left[i] != left[j]
    ensures Reaches(s, cfg, Shared(CheckedIn(r, left), calls))
    decreases |left|
  {
    var t := Shared(r, calls[id := Checking(left)]);
    ReachedInv(s, cfg, t);
    assert CallOk(r, t.calls[id]);
    if left == [] {
      Go(s, cfg, t, Look(id));
      assert t.calls - {id} == calls;
      assert CheckedIn(r, []).providers == r.providers;
    } else {
      CheckedInStep(r, left);
      LooksAndMarks(s, cfg, r, calls, id, left);
      UninterruptedLooks(s, cfg, WithStatus(r, left[0], Checked(r.providers[left[0]]).status), calls, id, left[1..]);
    }
  }

  lemma LookNext(r: Router, calls: map<nat, Call>, cfg: Config, id: nat, left: seq<string>)
    requires SharedInv(Shared(r, calls[id := Checking(left)])) && left != [] && left[0] in r.providers
    ensures Next(Shared(r, calls[id := Checking(left)]), cfg, Look(id)) ==
            Shared(r, calls[id := Marking(left[0], Checked(r.providers[left[0]]).status, left[1..])])
  {
    var c := Marking(left[0], Checked(r.providers[left[0]]).status, left[1..]);
    assert calls[id := Checking(left)][id := c] == calls[id := c];
  }

  lemma MarkNext(r: Router, calls: map<nat, Call>, cfg: Config, id: nat, n: string, status: Status, left: seq<string>)
    requires SharedInv(Shared(r, calls[id := Marking(n, status, left)])) && n in r.providers
    ensures Next(Shared(r, calls[id := Marking(n, status, left)]), cfg, Mark(id)) ==
            Shared(WithStatus(r, n, status), calls[id := Checking(left)])
  {
    assert calls[id := Marking(n, status, left)][id := Checking(left)] == calls[id := Checking(left)];
  }

  lemma LooksAndMarks(s: Shared, cfg: Config, r: Router, calls: map<nat, Call>, id: nat, left: seq<string>)
    requires id !in calls && left != [] && left[0] in r.providers
    requires Reaches(s, cfg, Shared(r, calls[id := Checking(left)]))
    ensures var status := Checked(r.providers[left[0]]).status;
            Reaches(s, cfg, Shared(WithStatus(r, left[0], status), calls[id := Checking(left[1..])]))
  {
    var t, status := Shared(r, calls[id := Checking(left)]), Checked(r.providers[left[0]]).status;
    ReachedInv(s, cfg, t);
    LookNext(r, calls, cfg, id, left);
    Go(s, cfg, t, Look(id));
    MarkNext(r, calls, cfg, id, left[0], status, left[1..]);
    Go(s, cfg, Shared(r, calls[id := Marking(left[0], status, left[1..])]), Mark(id));
  }

  /** A health check that nothing overlaps with does what `health_check_all` does in one step. */
  lemma UninterruptedCheck(s: Shared, cfg: Config, t: Shared, id: nat)
    requires Reaches(s, cfg, t) && SharedInv(t) && id !in t.calls
    ensures Reaches(s, cfg, Shared(HealthChecked(t.router), t.calls))
  {
    Go(s, cfg, t, StartCheck(id));
    UninterruptedLooks(s, cfg, t.router, t.calls, id, t.router.order);
    CheckedInAll(t.router);
  }

  lemma CheckedInAll(r: Router)
    requires Wf(r)
    ensures CheckedIn(r, r.order) == HealthChecked(r)
  {
    assert CheckedIn(r, r.order).providers == HealthChecked(r).providers;
  }

  /** The racers still open are looked at in the order they finish. */
  predicate FinishInTurn(open: set<nat>, finished: seq<Finish>) {
    && (forall i :: 0 <= i < |finished| ==> finished[i].racer in open)
    && (forall i, j :: 0 <= i < j < |finished| ==> finished[i].racer != finished[j].racer)
  }

  /** The router after one finished racer that does not win. */
  function Lost(r: Router, n: string, exec: Execution): Router
    requires n in r.providers
  {
    if exec.Raised? then Failed(r, n) else r
  }

  lemma Lap(r: Router, calls: map<nat, Call>, cfg: Config, id: nat, racers: seq<string>, open: set<nat>, f: Finish)
    requires SharedInv(Shared(r, calls[id := Racing(racers, open)])) && id !in calls
    requires f.racer in open && f.racer < |racers| && Known(r, racers)
    ensures Next(Shared(r, calls[id := Racing(racers, open)]), cfg, RaceFinish(id, f.racer, f.exec, f.elapsed)) ==
            if Wins(f) then Shared(Completed(r, racers[f.racer], f.exec.tokens, f.exec.cost, f.elapsed), calls)
            else Shared(Lost(r, racers[f.racer], f.exec), calls[id := Racing(racers, open - {f.racer})])
  {
    assert calls[id := Racing(racers, open)] - {id} == calls;
    assert calls[id := Racing(racers, open)][id := Racing(racers, open - {f.racer})] ==
           calls[id := Racing(racers, open - {f.racer})];
  }

  lemma {:induction false} UninterruptedLaps(s: Shared, cfg: Config, r: Router, calls: map<nat, Call>, id: nat,
                                             racers: seq<string>, open: set<nat>, finished: seq<Finish>)
    requires id !in calls && Reaches(s, cfg, Shared(r, calls[id := Racing(racers, open)]))
    requires SharedInv(Shared(r, calls[id := Racing(racers, open)]))
    requires Known(r, racers) && Finishes(finished, |racers|) && FinishInTurn(open, finished)
    ensures Reaches(s, cfg, Shared(Raced(r, racers, finished), calls))
    decreases |finished|
  {
    var t := Shared(r, calls[id := Racing(racers, open)]);
    if finished == [] {
      Go(s, cfg, t, RaceEnd(id));
      assert t.calls - {id} == calls;
    } else {
      var f := finished[0];
      Lap(r, calls, cfg, id, racers, open, f);
      Go(s, cfg, t, RaceFinish(id, f.racer, f.exec, f.elapsed));
      if !Wins(f) {
        UninterruptedLaps(s, cfg, Lost(r, racers[f.racer], f.exec), calls, id, racers, open - {f.racer}, finished[1..]);
      }
    }
  }

  /** A race that nothing overlaps with does what `route_race` does in one step, whether or not it times out. */
  lemma UninterruptedRace(s: Shared, cfg: Config, id: nat, names: seq<string>, finished: seq<Finish>)
    requires SharedInv(s) && id !in s.calls
    requires FinishInTurn(Positions(|Racers(s.router, names)|), finished)
    ensures Reaches(s, cfg, Shared(Raced(s.router, Racers(s.router, names), finished), s.calls))
  {
    var racers := Racers(s.router, names);
    Stay(s, cfg);
    StartsRace(s, cfg, id, names);
    Go(s, cfg, s, StartRace(id, names));
    if racers != [] {
      UninterruptedLaps(s, cfg, s.router, s.calls, id, racers, Positions(|racers|), finished);
    }
  }

  lemma StartsRace(s: Shared, cfg: Config, id: nat, names: seq<string>)
    requires SharedInv(s) && id !in s.calls
    ensures var racers := Racers(s.router, names);
            Next(s, cfg, StartRace(id, names)) ==
            if racers == [] then s else Shared(s.router, s.calls[id := Racing(racers, Positions(|racers|))])
  {
    assert s.calls - {id} == s.calls;
  }

  // ----- A late failure, step by step

  const NEW: Provider := Provider(Healthy, 0, 0, 0.0, 0.0, 0)
  const ASK: Request := Request("p", 0.0)

  /** The router with one provider, whose calls have all failed. */
  function OnlyP(p: Provider, calls: map<nat, Call>): Shared {
    Shared(Router(["p"], map["p" := p], 0, p.total, p.total, 0, 0.0), calls)
  }

  lemma AvailableP(p: Provider, calls: map<nat, Call>)
    requires IsAvailable(p)
    ensures Available(["p"], OnlyP(p, calls).router.providers) == ["p"]
  {
    assert ["p"][..0] == [];
    assert Available([], OnlyP(p, calls).router.providers) == [];
  }

  lemma StartOnP(p: Provider, calls: map<nat, Call>, cfg: Config, id: nat)
    requires SharedInv(OnlyP(p, calls)) && IsAvailable(p) && id !in calls
    ensures Next(OnlyP(p, calls), cfg, StartRoute(id, ASK)) == OnlyP(p, calls[id := Executing("p")])
    ensures Select(OnlyP(p, calls).router, cfg, ASK) == Some("p")
  {
    AvailableP(p, calls);
  }

  lemma AllFailed(p: Provider)
    requires p.failed == p.total > 0
    ensures FailureRate(p) == 1.0
  {
    var b := p.total as real;
    assert b / b * b == b;
    Larger(b / b, 1.0, b);
    Larger(1.0, b / b, b);
  }

  /** The provider after one more call that raised. */
  function Worse(p: Provider): Provider {
    p.(status := Degraded, total := p.total + 1, failed := p.failed + 1)
  }

  lemma RaisedOnP(p: Provider, calls: map<nat, Call>, cfg: Config)
    requires p.failed == p.total && cfg.failoverThreshold < 1.0
    ensures Ended(OnlyP(p, calls).router, cfg, "p", Raised, 0.0) == OnlyP(Worse(p), calls).router
  {
    AllFailed(p.(total := p.total + 1, failed := p.failed + 1));
  }

  lemma CheckedP(p: Provider, calls: map<nat, Call>)
    requires p.failed == p.total > 0
    ensures HealthChecked(OnlyP(p, calls).router) == OnlyP(p.(status := Unhealthy), calls).router
  {
    AllFailed(p);
  }

  /** Two calls are in flight on one new provider. */
  lemma TwoInFlight(cfg: Config)
    ensures Reaches(NOBODY, cfg, OnlyP(NEW, map[0 := Executing("p"), 1 := Executing("p")]))
  {
    Stay(NOBODY, cfg);
    Go(NOBODY, cfg, NOBODY, Action.Register("p", NEW));
    assert Next(NOBODY, cfg, Action.Register("p", NEW)) == OnlyP(NEW, map[]);
    StartOnP(NEW, map[], cfg, 0);
    Go(NOBODY, cfg, OnlyP(NEW, map[]), StartRoute(0, ASK));
    StartOnP(NEW, map[0 := Executing("p")], cfg, 1);
    Go(NOBODY, cfg, OnlyP(NEW, map[0 := Executing("p")]), StartRoute(1, ASK));
  }

  /** The first raises, and a health check marks the provider unhealthy. */
  lemma MarkedMeanwhile(cfg: Config)
    requires cfg.failoverThreshold < 1.0
    ensures Reaches(NOBODY, cfg, OnlyP(Worse(NEW).(status := Unhealthy), map[1 := Executing("p")]))
  {
    TwoInFlight(cfg);
    var one := map[1 := Executing("p")];
    assert one[0 := Executing("p")] == map[0 := Executing("p"), 1 := Executing("p")];
    RaisedOnP(NEW, one, cfg);
    FinishesFor(NOBODY, cfg, OnlyP(NEW, one).router, one, 0, "p", Raised, 0.0);
    ReachedInv(NOBODY, cfg, OnlyP(Worse(NEW), one));
    UninterruptedCheck(NOBODY, cfg, OnlyP(Worse(NEW), one), 2);
    CheckedP(Worse(NEW), one);
  }

  /**
    Two calls are in flight when the first raises; a health check marks the provider unhealthy; then
    the second raises, and the provider is available again and the next request selects it.
  */
  lemma LateFailureRevives(cfg: Config) returns (s: Shared, t: Shared)
    requires cfg.failoverThreshold < 1.0
    ensures Reaches(NOBODY, cfg, s) && WrittenOff(s.router, "p")
    ensures Reaches(s, cfg, t) && SharedInv(t) && Select(t.router, cfg, ASK) == Some("p")
  {
    MarkedMeanwhile(cfg);
    var p := Worse(NEW).(status := Unhealthy);
    s, t := OnlyP(p, map[][1 := Executing("p")]), OnlyP(Worse(p), map[]);
    ReachedInv(NOBODY, cfg, s);
    AllFailed(p);
    Stay(s, cfg);
    RaisedOnP(p, map[], cfg);
    FinishesFor(s, cfg, s.router, map[], 1, "p", Raised, 0.0);
    ReachedInv(s, cfg, t);
    StartOnP(Worse(p), map[], cfg, 0);
  }
}
