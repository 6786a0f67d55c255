/** Which provider runs a stage: hard limits, scoring, and the budget of provider switches. */
module ProviderSelector {
  import opened EventLog

  datatype Capability = Capability(provider: string, maxContext: nat, quality: int, speed: int, cost: int)

  /** Every provider of the source rates itself from 1 to 5. */
  predicate Rated(c: Capability) {
    1 <= c.quality <= 5 && 1 <= c.speed <= 5 && 1 <= c.cost <= 5
  }

  datatype Policy = Policy(goal: string, allowSwitching: bool, continuity: bool, minContext: nat,
                           maxLatency: string, maxCost: string, preferReviewer: bool)

  datatype Facts = Facts(complexity: string, taskType: string, lastSuccessful: string)

  datatype Request = Request(stage: Stage, facts: Facts, policy: Policy, explicitStage: string,
                             explicitDefault: string, previous: Option<string>)

  /** The events of a task that the selector reads; texts are trimmed, provider names in lower case. */
  datatype RunEvent =
    | Completion(provider: string, model: string)
    | Switch(fromProvider: string, fromModel: string, toProvider: string, toModel: string)
    | Failure(provider: string)
    | WorkspaceFailure(provider: string, providerAtFault: bool)
    | Unrelated

  function Recent(log: seq<RunEvent>, limit: nat): seq<RunEvent> {
    log[Max(|log| - limit, 0)..]
  }

  function Names(rows: seq<Capability>): seq<string> {
    seq(|rows|, i requires 0 <= i < |rows| => rows[i].provider)
  }

  // ---- recent failures ----

  predicate Blames(e: RunEvent, provider: string) {
    provider != "" && (e == Failure(provider) || e == WorkspaceFailure(provider, true))
  }

  function FailuresIn(events: seq<RunEvent>, provider: string): nat {
    if events == [] then 0 else (if Blames(events[0], provider) then 1 else 0) + FailuresIn(events[1..], provider)
  }

  function RecentFailures(log: seq<RunEvent>, provider: string): nat {
    FailuresIn(Recent(Recent(log, 100), 30), provider)
  }

  function Tally(failures: map<string, nat>, provider: string): nat {
    if provider in failures then failures[provider] else 0
  }

  method RecentProviderFailures(log: seq<RunEvent>) returns (failures: map<string, nat>)
    ensures forall p :: Tally(failures, p) == RecentFailures(log, p)
  {
    var events := Recent(Recent(log, 100), 30);
    failures := map[];
    var i := |events|;
    while i > 0
      invariant 0 <= i <= |events|
      invariant forall p :: Tally(failures, p) == FailuresIn(events[i..], p)
    {
      i := i - 1;
      assert events[i..][1..] == events[i + 1..];
      var event := events[i];
      if event.Failure? || (event.WorkspaceFailure? && event.providerAtFault) {
        if event.provider != "" {
          failures := failures[event.provider := Tally(failures, event.provider) + 1];
        }
      }
    }
  }

  lemma {:induction false} FailuresFitWindow(events: seq<RunEvent>, provider: string)
    ensures FailuresIn(events, provider) <= |events|
  {
    if events == [] {
    } else {
      FailuresFitWindow(events[1..], provider);
    }
  }

  // ---- scoring ----

  function LatencyFloor(tier: string): int {
    if tier == "slow" then 1 else if tier == "balanced" then 2 else if tier == "fast" then 3 else 0
  }

  function CostCeiling(tier: string): int {
    if tier == "low" then 2 else if tier == "medium" then 3 else 5
  }

  predicate TooSmall(p: Policy, c: Capability) {
    c.maxContext < p.minContext
  }

  predicate OffTier(p: Policy, c: Capability) {
    (p.maxLatency != "" && c.speed < LatencyFloor(p.maxLatency)) || (p.maxCost != "" && c.cost > CostCeiling(p.maxCost))
  }

  /** Meets the context, latency and cost limits of the policy. */
  predicate Compliant(p: Policy, c: Capability) {
    !TooSmall(p, c) && !OffTier(p, c)
  }

  function Loyalty(r: Request, c: Capability): real {
    (if r.explicitStage != "" && c.provider == r.explicitStage then 200.0
     else if r.explicitDefault != "" && c.provider == r.explicitDefault then 120.0
     else 0.0)
    + (if r.previous == Some(c.provider) && r.policy.continuity then 40.0 else 0.0)
    - (if r.previous.Some? && r.previous != Some(c.provider) && !r.policy.allowSwitching then 200.0 else 0.0)
    + (if c.provider == r.facts.lastSuccessful then 24.0 else 0.0)
  }

  function TaskFit(r: Request, c: Capability): real {
    (if r.facts.complexity == "high" then (c.quality * 6) as real else 0.0)
    + (if r.facts.complexity == "low" then (c.speed * 4) as real else 0.0)
    + (if r.facts.taskType in {"research", "analysis"} then c.maxContext as real / 100000.0 else 0.0)
    + (if r.stage == Review && r.policy.preferReviewer && c.provider == "anthropic" then 35.0 else 0.0)
  }

  function GoalFit(goal: string, c: Capability): real {
    if goal == "quality" then (c.quality * 14) as real
    else if goal == "speed" then (c.speed * 14) as real
    else if goal == "cost" then ((6 - c.cost) * 14) as real
    else if goal == "context" then c.maxContext as real / 10000.0
    else (c.quality * 6 + c.speed * 4 + (6 - c.cost) * 3) as real + Min(c.maxContext, 256000) as real / 64000.0
  }

  function StageAffinity(stage: Stage, provider: string): real {
    match stage
    case Plan =>
      if provider == "openai" then 12.0 else if provider == "gemini" then 8.0
      else if provider == "anthropic" then 6.0 else 0.0
    case Execute =>
      if provider == "openai" then 14.0 else if provider == "anthropic" then 8.0
      else if provider == "gemini" then 6.0 else 0.0
    case Review =>
      if provider == "anthropic" then 16.0 else if provider == "openai" then 8.0
      else if provider == "gemini" then 6.0 else 0.0
  }

  function Score(r: Request, c: Capability, failures: nat): real {
    if TooSmall(r.policy, c) then -10000.0
    else if OffTier(r.policy, c) then -5000.0
    else Loyalty(r, c) + TaskFit(r, c) + GoalFit(r.policy.goal, c) + StageAffinity(r.stage, c.provider)
         - (failures * 40) as real
  }

  method ProviderScore(r: Request, c: Capability, failures: nat) returns (score: real)
    ensures score == Score(r, c, failures)
  {
    var policy := r.policy;
    if c.maxContext < policy.minContext {
      return -10000.0;
    }
    if policy.maxLatency != "" && c.speed < LatencyFloor(policy.maxLatency) {
      return -5000.0;
    }
    if policy.maxCost != "" && c.cost > CostCeiling(policy.maxCost) {
      return -5000.0;
    }
    score := 0.0;
    if r.explicitStage != "" && c.provider == r.explicitStage {
      score := score + 200.0;
    } else if r.explicitDefault != "" && c.provider == r.explicitDefault {
      score := score + 120.0;
    }
    if r.previous.Some? && c.provider == r.previous.value && policy.continuity {
      score := score + 40.0;
    }
    if r.previous.Some? && c.provider != r.previous.value && !policy.allowSwitching {
      score := score - 200.0;
    }
    if c.provider == r.facts.lastSuccessful {
      score := score + 24.0;
    }
    assert score == Loyalty(r, c);
    score := score + (if r.facts.complexity == "high" then (c.quality * 6) as real else 0.0);
    score := score + (if r.facts.complexity == "low" then (c.speed * 4) as real else 0.0);
    if r.facts.taskType in {"research", "analysis"} {
      score := score + c.maxContext as real / 100000.0;
    }
    if r.stage == Review && policy.preferReviewer && c.provider == "anthropic" {
      score := score + 35.0;
    }
    assert score == Loyalty(r, c) + TaskFit(r, c);
    hide Loyalty, TaskFit;
    if policy.goal == "quality" {
      score := score + (c.quality * 14) as real;
    } else if policy.goal == "speed" {
      score := score + (c.speed * 14) as real;
    } else if policy.goal == "cost" {
      score := score + ((6 - c.cost) * 14) as real;
    } else if policy.goal == "context" {
      score := score + c.maxContext as real / 10000.0;
    } else {
      score := score + (c.quality * 6) as real;
      score := score + (c.speed * 4) as real;
      score := score + ((6 - c.cost) * 3) as real;
      score := score + Min(c.maxContext, 256000) as real / 64000.0;
    }
    assert score == Loyalty(r, c) + TaskFit(r, c) + GoalFit(policy.goal, c);
    score := score + StageAffinity(r.stage, c.provider);
    score := score - (failures * 40) as real;
  }

  /** With at most 30 failures in view, a score tells compliant from non-compliant. */
  lemma ComplianceSeparatesScores(r: Request, c: Capability, failures: nat)
    requires Rated(c) && failures <= 30
    ensures Compliant(r.policy, c) ==> Score(r, c, failures) >= -1400.0
    ensures !Compliant(r.policy, c) ==> Score(r, c, failures) <= -5000.0
  {
    if Compliant(r.policy, c) {
      assert Loyalty(r, c) >= -200.0;
      assert TaskFit(r, c) >= 0.0;
      assert GoalFit(r.policy.goal, c) >= 0.0;
      assert StageAffinity(r.stage, c.provider) >= 0.0;
      hide Loyalty, TaskFit, GoalFit, StageAffinity;
    }
  }

  // ---- the choice ----

  /** The position of the greatest value, the first one on ties. */
  function FirstMax(values: seq<real>): (i: nat)
    requires values != []
    ensures i < |values|
    ensures forall j :: 0 <= j < |values| ==> values[j] <= values[i]
    ensures forall j :: 0 <= j < i ==> values[j] < values[i]
  {
    var n := |values| - 1;
    if n == 0 then 0
    else
      var i := FirstMax(values[..n]);
      if values[n] > values[i] then n else i
  }

  type Scored = (real, string)

  /** A stable sort by descending score, as insertion. */
  function StableSort(scored: seq<Scored>): seq<Scored> {
    if scored == [] then [] else Place(StableSort(scored[..|scored| - 1]), scored[|scored| - 1])
  }

  function Place(sorted: seq<Scored>, x: Scored): seq<Scored> {
    if sorted == [] then [x]
    else if sorted[0].0 >= x.0 then [sorted[0]] + Place(sorted[1..], x)
    else [x] + sorted
  }

  function Keys(scored: seq<Scored>): seq<real> {
    seq(|scored|, i requires 0 <= i < |scored| => scored[i].0)
  }

  lemma PlaceHead(sorted: seq<Scored>, x: Scored)
    ensures Place(sorted, x) != []
    ensures Place(sorted, x)[0] == if sorted != [] && sorted[0].0 >= x.0 then sorted[0] else x
  {
  }

  /** The head of the sorted entries is the first of the entries with the greatest score. */
  lemma {:induction false} HeadOfSort(scored: seq<Scored>)
    requires scored != []
    ensures StableSort(scored) != [] && StableSort(scored)[0] == scored[FirstMax(Keys(scored))]
  {
    hide Place;
    var n := |scored| - 1;
    var before := scored[..n];
    assert Keys(scored)[..n] == Keys(before);
    PlaceHead(StableSort(before), scored[n]);
    if n == 0 {
    } else {
      HeadOfSort(before);
      assert before[FirstMax(Keys(before))] == scored[FirstMax(Keys(before))];
    }
  }

  /** The first other provider without recent failures, or `preferred` when there is none. */
  function Alternative(names: seq<string>, preferred: string, log: seq<RunEvent>): string {
    if names == [] then preferred
    else if names[0] != preferred && RecentFailures(log, names[0]) == 0 then names[0]
    else Alternative(names[1..], preferred, log)
  }

  function FailureAware(names: seq<string>, preferred: string, log: seq<RunEvent>): string {
    if RecentFailures(log, preferred) < 2 then preferred else Alternative(names, preferred, log)
  }

  function Preferred(r: Request, names: seq<string>): string {
    if r.explicitStage != "" && r.explicitStage in names then r.explicitStage
    else if r.explicitDefault != "" && r.explicitDefault in names then r.explicitDefault
    else ""
  }

  function Scores(r: Request, rows: seq<Capability>, log: seq<RunEvent>): seq<real> {
    seq(|rows|, i requires 0 <= i < |rows| => Score(r, rows[i], RecentFailures(log, rows[i].provider)))
  }

  /** What selection decides before it scores anything. */
  function Decided(default: string, r: Request, names: seq<string>, log: seq<RunEvent>): Option<string> {
    if !r.policy.allowSwitching && r.previous.Some? && r.previous.value in names then r.previous
    else if Preferred(r, names) != "" then Some(FailureAware(names, Preferred(r, names), log))
    else if default != "" && default !in names && r.explicitStage == "" && r.explicitDefault == "" then Some(default)
    else if default == "local_echo" && default in names then Some(default)
    else None
  }

  function Choose(default: string, r: Request, rows: seq<Capability>, log: seq<RunEvent>): Option<string> {
    if rows == [] then None
    else if Decided(default, r, Names(rows), log).Some? then Decided(default, r, Names(rows), log)
    else Some(rows[FirstMax(Scores(r, rows, log))].provider)
  }

  /** When selection reaches scoring, the chosen provider meets the hard limits exactly when some
      provider does. */
  lemma HardLimitsDominate(default: string, r: Request, rows: seq<Capability>, log: seq<RunEvent>)
    requires rows != [] && Decided(default, r, Names(rows), log).None?
    requires forall c :: c in rows ==> Rated(c)
    ensures var winner := rows[FirstMax(Scores(r, rows, log))];
            && Choose(default, r, rows, log) == Some(winner.provider)
            && (Compliant(r.policy, winner) <==> exists c :: c in rows && Compliant(r.policy, c))
  {
    hide Compliant, Score, RecentFailures, Decided;
    var scores := Scores(r, rows, log);
    forall i | 0 <= i < |rows|
      ensures Compliant(r.policy, rows[i]) ==> scores[i] >= -1400.0
      ensures !Compliant(r.policy, rows[i]) ==> scores[i] <= -5000.0
    {
      FailuresFitView(log, rows[i].provider);
      ComplianceSeparatesScores(r, rows[i], RecentFailures(log, rows[i].provider));
    }
  }

  lemma FailuresFitView(log: seq<RunEvent>, provider: string)
    ensures RecentFailures(log, provider) <= 30
  {
    FailuresFitWindow(Recent(Recent(log, 100), 30), provider);
  }

  // ---- the switch budget ----

  function Latest(events: seq<RunEvent>): Option<(string, string)> {
    if events == [] then None
    else match events[|events| - 1]
      case Completion(p, m) => if p != "" && m != "" then Some((p, m)) else Latest(events[..|events| - 1])
      case Switch(_, _, p, m) => if p != "" && m != "" then Some((p, m)) else Latest(events[..|events| - 1])
      case _ => Latest(events[..|events| - 1])
  }

  method LatestRunProviderModel(log: seq<RunEvent>) returns (found: Option<(string, string)>)
    ensures found == Latest(Recent(log, 100))
  {
    var events := Recent(log, 100);
    var i := |events|;
    assert events[..i] == events;
    while i > 0
      invariant 0 <= i <= |events|
      invariant Latest(events) == Latest(events[..i])
    {
      assert events[..i][..i - 1] == events[..i - 1];
      i := i - 1;
      match events[i] {
        case Completion(provider, model) =>
          if provider != "" && model != "" {
            return Some((provider, model));
          }
        case Switch(_, _, provider, model) =>
          if provider != "" && model != "" {
            return Some((provider, model));
          }
        case _ =>
      }
    }
    return None;
  }

  function Switches(events: seq<RunEvent>): nat {
    if events == [] then 0
    else Switches(events[..|events| - 1]) + if events[|events| - 1].Switch? then 1 else 0
  }

  predicate CrossesProviders(e: RunEvent) {
    e.Switch? && e.fromProvider != "" && e.fromProvider != e.toProvider
  }

  function Crossings(events: seq<RunEvent>): nat {
    if events == [] then 0
    else Crossings(events[..|events| - 1]) + if CrossesProviders(events[|events| - 1]) then 1 else 0
  }

  /** A budget preference that is absent or unreadable leaves the configured one. */
  function SwitchBudget(raw: Option<int>, configured: nat): nat {
    match raw case None => configured case Some(n) => Max(n, 0)
  }

  method EffectivePolicy(policy: Policy, log: seq<RunEvent>, budget: nat) returns (effective: Policy)
    ensures effective == if Switches(Recent(log, STORE_LIMIT)) >= budget then policy.(allowSwitching := false) else policy
  {
    var events := Recent(log, STORE_LIMIT);
    var count := 0;
    for i := 0 to |events|
      invariant count == Switches(events[..i])
    {
      assert events[..i + 1][..i] == events[..i];
      if events[i].Switch? {
        count := count + 1;
      }
    }
    assert events[..|events|] == events;
    effective := policy;
    if count >= budget {
      effective := effective.(allowSwitching := false);
    }
  }

  /** One stage run: the events that came before it, what it asks for, the events that it leaves, and
      the provider and model of its result (none when it raises). */
  datatype Attempt = Attempt(before: seq<RunEvent>, request: Request, fallback: seq<string>, rows: seq<Capability>,
                             during: seq<RunEvent>, result: Option<(string, string)>)

  function Asked(log: seq<RunEvent>, a: Attempt, budget: nat): Request {
    var seen := Latest(Recent(log, 100));
    var policy := if Switches(Recent(log, STORE_LIMIT)) >= budget then a.request.policy.(allowSwitching := false)
                  else a.request.policy;
    a.request.(policy := policy, previous := match seen case None => None case Some(run) => Some(run.0))
  }

  function Recorded(previous: Option<(string, string)>, next: (string, string)): seq<RunEvent> {
    if previous == Some(next) then []
    else match previous
      case None => [Switch("", "", next.0, next.1)]
      case Some(run) => [Switch(run.0, run.1, next.0, next.1)]
  }

  function AfterAttempt(log: seq<RunEvent>, a: Attempt): seq<RunEvent> {
    log + a.before + a.during +
    match a.result
    case None => []
    case Some(run) => Recorded(Latest(Recent(log + a.before, 100)), run)
  }

  class RuntimeSelector {
    const defaultProvider: string
    const maxSwitches: nat
    var log: seq<RunEvent>

    constructor (defaultProvider: string, maxSwitches: int)
      ensures this.defaultProvider == defaultProvider && this.maxSwitches == Max(maxSwitches, 0) && log == []
    {
      this.defaultProvider := defaultProvider;
      this.maxSwitches := Max(maxSwitches, 0);
      log := [];
    }

    method FailureAwareProviderChoice(preferred: string, available: seq<string>) returns (choice: string)
      requires preferred in available
      ensures choice == FailureAware(available, preferred, log)
    {
      var failures := RecentProviderFailures(log);
      if Tally(failures, preferred) < 2 {
        return preferred;
      }
      for i := 0 to |available|
        invariant Alternative(available, preferred, log) == Alternative(available[i..], preferred, log)
      {
        assert available[i..][1..] == available[i + 1..];
        if available[i] != preferred {
          if Tally(failures, available[i]) == 0 {
            return available[i];
          }
        }
      }
      return preferred;
    }

    /** The fallback order mentions every available provider, whatever the preferences say. */
    method StageProviderOrder(stage: Stage, available: seq<string>, fallback: seq<string>) returns (ordered: seq<string>)
      ensures forall p :: p in ordered <==> p in available
      ensures defaultProvider != "" && defaultProvider in available ==> ordered[0] == defaultProvider
    {
      var preferred := if stage == Review then ["anthropic", "openai", "gemini", "local_echo"]
                       else ["openai", "anthropic", "gemini", "local_echo"];
      if fallback != [] {
        preferred := fallback + Without(preferred, fallback);
      }
      var defaultFirst := defaultProvider != "" && defaultProvider in available;
      if defaultFirst {
        preferred := [defaultProvider] + Without(preferred, [defaultProvider]);
      }
      ordered := [];
      for i := 0 to |preferred|
        invariant forall p :: p in ordered ==> p in available
        invariant i == 0 ==> ordered == []
        invariant i > 0 && defaultFirst ==> ordered != [] && ordered[0] == defaultProvider
      {
        if preferred[i] in available {
          ordered := ordered + [preferred[i]];
        }
      }
      for i := 0 to |available|
        invariant forall p :: p in ordered ==> p in available
        invariant defaultFirst ==> ordered != [] && ordered[0] == defaultProvider
        invariant forall j :: 0 <= j < i ==> available[j] in ordered
      {
        if available[i] !in ordered {
          ordered := ordered + [available[i]];
        }
      }
    }

    /** The result does not depend on the fallback order. */
    method ResolveProvider(r: Request, fallback: seq<string>, rows: seq<Capability>) returns (choice: Option<string>)
      ensures choice == Choose(defaultProvider, r, rows, log)
    {
      if rows == [] {
        return None;
      }
      var available := Names(rows);
      if !r.policy.allowSwitching && r.previous.Some? && r.previous.value in available {
        return r.previous;
      }
      var preferred := if r.explicitStage != "" && r.explicitStage in available then r.explicitStage
                       else if r.explicitDefault != "" && r.explicitDefault in available then r.explicitDefault
                       else "";
      if preferred != "" {
        var chosen := FailureAwareProviderChoice(preferred, available);
        return Some(chosen);
      }
      if defaultProvider != "" && defaultProvider !in available && r.explicitStage == "" && r.explicitDefault == "" {
        return Some(defaultProvider);
      }
      if defaultProvider == "local_echo" && "local_echo" in available {
        return Some("local_echo");
      }
      var ordered := StageProviderOrder(r.stage, available, fallback);
      var best := BestScored(r, rows, available, ordered);
      return Some(best);
    }

    method BestScored(r: Request, rows: seq<Capability>, available: seq<string>, ordered: seq<string>) returns (best: string)
      requires rows != [] && available == Names(rows) && forall p :: p in ordered <==> p in available
      ensures best == rows[FirstMax(Scores(r, rows, log))].provider
    {
      hide Score, RecentFailures;
      var failures := RecentProviderFailures(log);
      var scored: seq<Scored> := [];
      for i := 0 to |rows|
        invariant |scored| == i
        invariant forall j :: 0 <= j < i ==> scored[j] == (Scores(r, rows, log)[j], rows[j].provider)
      {
        assert available[i] in ordered;
        if rows[i].provider in ordered {
          var score := ProviderScore(r, rows[i], Tally(failures, rows[i].provider));
          scored := scored + [(score, rows[i].provider)];
        }
      }
      assert Keys(scored) == Scores(r, rows, log);
      HeadOfSort(scored);
      scored := StableSort(scored);
      best := scored[0].1;
    }

    method RecordModelSwitchIfNeeded(previous: Option<(string, string)>, next: (string, string))
      modifies this
      ensures log == old(log) + Recorded(previous, next)
    {
      if previous == Some(next) {
        return;
      }
      var from := if previous.Some? then previous.value else ("", "");
      log := log + [Switch(from.0, from.1, next.0, next.1)];
    }

    /** One stage run, from the provider it asks for to the switch it records. */
    method RunStage(a: Attempt, rawBudget: Option<int>) returns (provider: Option<string>)
      modifies this
      ensures log == AfterAttempt(old(log), a)
      ensures provider == Choose(defaultProvider, Asked(old(log) + a.before, a, SwitchBudget(rawBudget, maxSwitches)),
                                 a.rows, old(log) + a.before)
    {
      hide Choose, Latest, Switches;
      log := log + a.before;
      var policy := EffectivePolicy(a.request.policy, log, SwitchBudget(rawBudget, maxSwitches));
      var previous := LatestRunProviderModel(log);
      var seen := if previous.Some? then Some(previous.value.0) else None;
      provider := ResolveProvider(a.request.(policy := policy, previous := seen), a.fallback, a.rows);
      log := log + a.during;
      if a.result.Some? {
        RecordModelSwitchIfNeeded(previous, a.result.value);
      }
    }
  }

  function Without(names: seq<string>, drop: seq<string>): seq<string> {
    if names == [] then []
    else (if names[0] in drop then [] else [names[0]]) + Without(names[1..], drop)
  }

  predicate NoSwitch(events: seq<RunEvent>) {
    forall e :: e in events ==> !e.Switch?
  }

  predicate NoCompletion(events: seq<RunEvent>) {
    forall e :: e in events ==> !e.Completion?
  }

  /** Nobody else writes switch events, the log fits the store's window, the executor runs the
      provider it was asked for, and the provider of the latest visible run is still available. */
  predicate Admissible(default: string, budget: nat, log: seq<RunEvent>, a: Attempt) {
    var now := log + a.before;
    var seen := Latest(Recent(now, 100));
    && NoSwitch(a.before) && NoSwitch(a.during)
    && |now| <= STORE_LIMIT
    && (seen.Some? ==> seen.value.0 in Names(a.rows))
    && (a.result.Some? ==> Choose(default, Asked(now, a, budget), a.rows, now) == Some(a.result.value.0))
  }

  function AfterRuns(log: seq<RunEvent>, runs: seq<Attempt>): seq<RunEvent> {
    if runs == [] then log else AfterAttempt(AfterRuns(log, runs[..|runs| - 1]), runs[|runs| - 1])
  }

  predicate AllAdmissible(default: string, budget: nat, log: seq<RunEvent>, runs: seq<Attempt>) {
    runs == [] ||
    var before := runs[..|runs| - 1];
    AllAdmissible(default, budget, log, before) && Admissible(default, budget, AfterRuns(log, before), runs[|runs| - 1])
  }

  lemma {:induction false} QuietEvents(log: seq<RunEvent>, more: seq<RunEvent>)
    requires NoSwitch(more)
    ensures Switches(log + more) == Switches(log) && Crossings(log + more) == Crossings(log)
    ensures NoCompletion(more) ==> Latest(log + more) == Latest(log)
  {
    if more == [] {
      assert log + more == log;
    } else {
      var n := |more| - 1;
      assert (log + more)[..|log| + n] == log + more[..n];
      QuietEvents(log, more[..n]);
    }
  }

  lemma {:induction false} CrossingsAreSwitches(log: seq<RunEvent>)
    ensures Crossings(log) <= Switches(log)
  {
    if log == [] {
    } else {
      CrossingsAreSwitches(log[..|log| - 1]);
    }
  }

  lemma {:induction false} VisibleRunExists(log: seq<RunEvent>, start: nat)
    requires start <= |log| && Latest(log[start..]).Some?
    ensures Latest(log) == Latest(log[start..])
  {
    var n := |log| - 1;
    if start <= n {
      assert log[start..][..n - start] == log[..n][start..];
      if Latest(log) == Latest(log[..n]) && Latest(log[start..]) == Latest(log[..n][start..]) {
        VisibleRunExists(log[..n], start);
      }
    }
  }

  lemma OneMore(log: seq<RunEvent>, e: RunEvent)
    ensures Switches(log + [e]) == Switches(log) + if e.Switch? then 1 else 0
    ensures Crossings(log + [e]) == Crossings(log) + if CrossesProviders(e) then 1 else 0
  {
    assert (log + [e])[..|log|] == log;
  }

  /** With the budget spent, the previous provider is asked for again. */
  lemma SpentBudgetPins(default: string, budget: nat, log: seq<RunEvent>, a: Attempt)
    requires Admissible(default, budget, log, a)
    requires Switches(log + a.before) >= budget
    ensures var seen := Latest(Recent(log + a.before, 100));
            seen.Some? && a.result.Some? ==> a.result.value.0 == seen.value.0
  {
    hide Latest, Switches, Preferred, FailureAware, Scores;
    var now := log + a.before;
    assert Recent(now, STORE_LIMIT) == now;
  }

  /** What one stage run adds: no switch, or one; and a crossing only below the budget. */
  lemma AttemptSpends(default: string, budget: nat, log: seq<RunEvent>, a: Attempt)
    requires Admissible(default, budget, log, a)
    ensures var after := AfterAttempt(log, a);
            || (Switches(after) == Switches(log) && Crossings(after) == Crossings(log)
                && (a.result.Some? ==> Latest(log + a.before).Some?))
            || (Switches(after) == Switches(log) + 1 && Crossings(after) == Crossings(log))
            || (Switches(after) == Switches(log) + 1 && Crossings(after) == Crossings(log) + 1
                && Switches(log) < budget && Latest(log + a.before).Some?)
  {
    hide Latest, Choose, Switches, Crossings;
    var now := log + a.before;
    QuietEvents(log, a.before);
    QuietEvents(now, a.during);
    var seen := Latest(Recent(now, 100));
    if seen.Some? {
      VisibleRunExists(now, Max(|now| - 100, 0));
    }
    if a.result.None? {
      assert AfterAttempt(log, a) == now + a.during;
    } else if seen == a.result {
      assert AfterAttempt(log, a) == now + a.during;
    } else {
      var e := Recorded(seen, a.result.value)[0];
      assert AfterAttempt(log, a) == now + a.during + [e];
      OneMore(now + a.during, e);
      if Switches(log) >= budget {
        SpentBudgetPins(default, budget, log, a);
      }
    }
  }

  /** Over any run of stages, the cross-provider switches stay within the budget. */
  lemma {:induction false} SwitchesWithinBudget(default: string, budget: nat, log: seq<RunEvent>, runs: seq<Attempt>)
    requires NoSwitch(log) && AllAdmissible(default, budget, log, runs)
    ensures Crossings(AfterRuns(log, runs)) <= budget
  {
    hide Admissible, AfterAttempt;
    if runs == [] {
      QuietEvents([], log);
      assert [] + log == log;
    } else {
      var before := runs[..|runs| - 1];
      SwitchesWithinBudget(default, budget, log, before);
      AttemptSpends(default, budget, AfterRuns(log, before), runs[|runs| - 1]);
      CrossingsAreSwitches(AfterRuns(log, before));
    }
  }

  /** Runs that complete without being recorded by this selector are absent. */
  predicate OwnRunsOnly(a: Attempt) {
    NoCompletion(a.before) && (a.result.None? ==> NoCompletion(a.during))
  }

  /** The very first run records a switch too, so a budget of B lets the provider change B - 1 times. */
  lemma {:induction false} FirstRunSpendsOne(default: string, budget: nat, runs: seq<Attempt>)
    requires AllAdmissible(default, budget, [], runs) && forall a :: a in runs ==> OwnRunsOnly(a)
    ensures var after := AfterRuns([], runs);
            && Crossings(after) <= Max(budget - 1, 0)
            && (Latest(after).Some? ==> Crossings(after) < Switches(after))
  {
    if runs == [] {
    } else {
      var n := |runs| - 1;
      var log, a := AfterRuns([], runs[..n]), runs[n];
      FirstRunSpendsOne(default, budget, runs[..n]);
      assert OwnRunsOnly(a);
      FirstRunStep(default, budget, log, a) by { hide AllAdmissible, OwnRunsOnly; }
    }
  }

  lemma FirstRunStep(default: string, budget: nat, log: seq<RunEvent>, a: Attempt)
    requires Admissible(default, budget, log, a) && OwnRunsOnly(a)
    requires Crossings(log) <= Max(budget - 1, 0) && (Latest(log).Some? ==> Crossings(log) < Switches(log))
    ensures var after := AfterAttempt(log, a);
            && Crossings(after) <= Max(budget - 1, 0)
            && (Latest(after).Some? ==> Crossings(after) < Switches(after))
  {
    AttemptSpends(default, budget, log, a) by { hide OwnRunsOnly; }
    hide Admissible, Switches, Crossings, Latest, Choose;
    QuietEvents(log, a.before) by { AdmissibleIsQuiet(default, budget, log, a); }
    CrossingsAreSwitches(log);
    if a.result.None? {
      assert AfterAttempt(log, a) == log + a.before + a.during;
      QuietEvents(log + a.before, a.during) by { AdmissibleIsQuiet(default, budget, log, a); }
    } else {
      hide AfterAttempt;
    }
  }

  lemma AdmissibleIsQuiet(default: string, budget: nat, log: seq<RunEvent>, a: Attempt)
    requires Admissible(default, budget, log, a)
    ensures NoSwitch(a.before) && NoSwitch(a.during)
  {
  }
}
