/** How selection weighs providers against each other, and whom it chooses before it weighs. */
module ProviderLaws {
  import opened EventLog
  import opened ProviderSelector

  // ---- the limits ----

  /** What a compliant provider must offer. */
  lemma LimitsMean(p: Policy, c: Capability)
    requires Rated(c)
    ensures Compliant(p, c) <==>
              && c.maxContext >= p.minContext
              && (p.maxLatency == "balanced" ==> c.speed >= 2) && (p.maxLatency == "fast" ==> c.speed >= 3)
              && (p.maxCost == "low" ==> c.cost <= 2) && (p.maxCost == "medium" ==> c.cost <= 3)
  {
  }

  // ---- one difference between two providers ----

  predicate Balanced(goal: string) {
    goal != "quality" && goal != "speed" && goal != "cost" && goal != "context"
  }

  /** Of two compliant providers that differ in their cost tier only, the cheaper one scores higher under
      the goals "cost" and balanced, and no other goal sees the difference. */
  lemma CheaperIsBetter(r: Request, c: Capability, d: Capability, failures: nat)
    requires Compliant(r.policy, c) && Compliant(r.policy, d) && d == c.(cost := d.cost) && c.cost < d.cost
    ensures if r.policy.goal == "cost" || Balanced(r.policy.goal) then Score(r, c, failures) > Score(r, d, failures)
            else Score(r, c, failures) == Score(r, d, failures)
  {
  }

  /** The one of higher quality scores higher under "quality" and balanced, and for tasks of high complexity. */
  lemma BetterQualityIsBetter(r: Request, c: Capability, d: Capability, failures: nat)
    requires Compliant(r.policy, c) && Compliant(r.policy, d) && d == c.(quality := d.quality) && c.quality > d.quality
    ensures if r.policy.goal == "quality" || Balanced(r.policy.goal) || r.facts.complexity == "high"
            then Score(r, c, failures) > Score(r, d, failures)
            else Score(r, c, failures) == Score(r, d, failures)
  {
    QualityFits(r, c, d);
    hide Loyalty, TaskFit, GoalFit, StageAffinity;
  }

  lemma QualityFits(r: Request, c: Capability, d: Capability)
    requires d == c.(quality := d.quality) && c.quality > d.quality
    ensures Loyalty(r, c) == Loyalty(r, d)
    ensures if r.facts.complexity == "high" then TaskFit(r, c) > TaskFit(r, d) else TaskFit(r, c) == TaskFit(r, d)
    ensures if r.policy.goal == "quality" || Balanced(r.policy.goal)
            then GoalFit(r.policy.goal, c) > GoalFit(r.policy.goal, d)
            else GoalFit(r.policy.goal, c) == GoalFit(r.policy.goal, d)
  {
  }

  /** The faster one scores higher under "speed" and balanced, and for tasks of low complexity. */
  lemma FasterIsBetter(r: Request, c: Capability, d: Capability, failures: nat)
    requires Compliant(r.policy, c) && Compliant(r.policy, d) && d == c.(speed := d.speed) && c.speed > d.speed
    ensures if r.policy.goal == "speed" || Balanced(r.policy.goal) || r.facts.complexity == "low"
            then Score(r, c, failures) > Score(r, d, failures)
            else Score(r, c, failures) == Score(r, d, failures)
  {
    SpeedFits(r, c, d);
    hide Loyalty, TaskFit, GoalFit, StageAffinity;
  }

  lemma SpeedFits(r: Request, c: Capability, d: Capability)
    requires d == c.(speed := d.speed) && c.speed > d.speed
    ensures Loyalty(r, c) == Loyalty(r, d)
    ensures if r.facts.complexity == "low" then TaskFit(r, c) > TaskFit(r, d) else TaskFit(r, c) == TaskFit(r, d)
    ensures if r.policy.goal == "speed" || Balanced(r.policy.goal)
            then GoalFit(r.policy.goal, c) > GoalFit(r.policy.goal, d)
            else GoalFit(r.policy.goal, c) == GoalFit(r.policy.goal, d)
  {
  }

  /** The one with the larger context scores higher under "context", for research and analysis, and, as long
      as the smaller context is below 256000 tokens, under balanced. */
  lemma LargerContextIsBetter(r: Request, c: Capability, d: Capability, failures: nat)
    requires Compliant(r.policy, c) && Compliant(r.policy, d) && d == c.(maxContext := d.maxContext)
    requires c.maxContext > d.maxContext
    ensures if || r.policy.goal == "context" || r.facts.taskType == "research" || r.facts.taskType == "analysis"
               || (Balanced(r.policy.goal) && d.maxContext < 256000)
            then Score(r, c, failures) > Score(r, d, failures)
            else Score(r, c, failures) == Score(r, d, failures)
  {
    ContextFits(r, c, d);
    hide Loyalty, TaskFit, GoalFit, StageAffinity;
  }

  lemma ContextFits(r: Request, c: Capability, d: Capability)
    requires d == c.(maxContext := d.maxContext) && c.maxContext > d.maxContext
    ensures Loyalty(r, c) == Loyalty(r, d)
    ensures if r.facts.taskType == "research" || r.facts.taskType == "analysis" then TaskFit(r, c) > TaskFit(r, d)
            else TaskFit(r, c) == TaskFit(r, d)
    ensures if r.policy.goal == "context" || (Balanced(r.policy.goal) && d.maxContext < 256000)
            then GoalFit(r.policy.goal, c) > GoalFit(r.policy.goal, d)
            else GoalFit(r.policy.goal, c) == GoalFit(r.policy.goal, d)
  {
  }

  /** One more recent failure costs a compliant provider exactly 40 points. */
  lemma FailureCostsForty(r: Request, c: Capability, failures: nat)
    requires Compliant(r.policy, c)
    ensures Score(r, c, failures + 1) == Score(r, c, failures) - 40.0
  {
    hide Loyalty, TaskFit, GoalFit, StageAffinity;
  }

  // ---- one difference between two requests ----

  /** A request that names nobody and remembers nobody. */
  predicate Neutral(r: Request) {
    r.explicitStage == "" && r.explicitDefault == "" && r.previous.None? && r.facts.lastSuccessful == ""
  }

  /** What it is worth to be the stage's provider, the preferred one, the previous one, another one than the
      previous while switching is off, and the one that last succeeded. */
  lemma LoyaltyIsWorth(r: Request, c: Capability, failures: nat, other: string)
    requires Neutral(r) && Compliant(r.policy, c) && c.provider != "" && other != c.provider
    ensures Score(r.(explicitStage := c.provider), c, failures) == Score(r, c, failures) + 200.0
    ensures Score(r.(explicitStage := c.provider, explicitDefault := c.provider), c, failures) == Score(r, c, failures) + 200.0
    ensures Score(r.(explicitDefault := c.provider), c, failures) == Score(r, c, failures) + 120.0
    ensures Score(r.(previous := Some(c.provider)), c, failures)
            == Score(r, c, failures) + if r.policy.continuity then 40.0 else 0.0
    ensures Score(r.(previous := Some(other)), c, failures)
            == Score(r, c, failures) - if r.policy.allowSwitching then 0.0 else 200.0
    ensures Score(r.(facts := r.facts.(lastSuccessful := c.provider)), c, failures) == Score(r, c, failures) + 24.0
  {
    hide GoalFit, StageAffinity;
  }

  /** Among equals, a plan and an execution go to openai, and a review to anthropic. */
  lemma StageFavourites(r: Request, c: Capability, d: Capability, failures: nat)
    requires Neutral(r) && Compliant(r.policy, c) && d == c.(provider := d.provider) && d.provider != c.provider
    requires c.provider == (if r.stage == Review then "anthropic" else "openai") && d.provider != ""
    ensures Score(r, c, failures) > Score(r, d, failures)
  {
  }

  /** After the favourite, gemini precedes anthropic in plans, anthropic gemini in executions, and openai
      gemini in reviews; nobody else has an affinity. */
  lemma StageRunnersUp(r: Request, c: Capability, failures: nat)
    requires Neutral(r) && Compliant(r.policy, c) && c.provider !in {"", "openai", "anthropic", "gemini"}
    ensures var second := if r.stage == Plan then "gemini" else if r.stage == Execute then "anthropic" else "openai";
            var third := if r.stage == Plan then "anthropic" else "gemini";
            Score(r, c.(provider := second), failures) > Score(r, c.(provider := third), failures) > Score(r, c, failures)
  {
  }

  /** Preferring the reviewer is worth 35 points to anthropic in a review, and nothing to anybody else. */
  lemma ReviewerIsWorth(r: Request, c: Capability, failures: nat)
    requires Compliant(r.policy, c)
    ensures Score(r.(policy := r.policy.(preferReviewer := true)), c, failures)
            - Score(r.(policy := r.policy.(preferReviewer := false)), c, failures)
            == if r.stage == Review && c.provider == "anthropic" then 35.0 else 0.0
  {
    var with, without := r.(policy := r.policy.(preferReviewer := true)), r.(policy := r.policy.(preferReviewer := false));
    ReviewerFits(r, c);
    assert Compliant(with.policy, c) && Compliant(without.policy, c);
    hide Loyalty, TaskFit, GoalFit, StageAffinity;
  }

  lemma ReviewerFits(r: Request, c: Capability)
    ensures var with, without := r.(policy := r.policy.(preferReviewer := true)), r.(policy := r.policy.(preferReviewer := false));
            && Loyalty(with, c) == Loyalty(without, c)
            && TaskFit(with, c) - TaskFit(without, c) == if r.stage == Review && c.provider == "anthropic" then 35.0 else 0.0
  {
  }

  // ---- recent failures ----

  /** Where, from position `k` on, a run or the workspace blames the provider. */
  function BlamedFrom(events: seq<RunEvent>, provider: string, k: nat): set<nat> {
    set i: nat | k <= i < |events| && provider != "" &&
      (events[i] == Failure(provider) || events[i] == WorkspaceFailure(provider, true))
  }

  lemma {:induction false} FailuresAreCounted(events: seq<RunEvent>, provider: string, k: nat)
    requires k <= |events|
    ensures FailuresIn(events[k..], provider) == |BlamedFrom(events, provider, k)|
    decreases |events| - k
  {
    if k == |events| {
      assert BlamedFrom(events, provider, k) == {};
    } else {
      FailuresAreCounted(events, provider, k + 1);
      assert events[k..][1..] == events[k + 1..];
      BlameStep(events, provider, k);
      hide BlamedFrom;
    }
  }

  lemma BlameStep(events: seq<RunEvent>, provider: string, k: nat)
    requires k < |events|
    ensures BlamedFrom(events, provider, k)
            == BlamedFrom(events, provider, k + 1) + (if Blames(events[k], provider) then {k} else {})
    ensures k !in BlamedFrom(events, provider, k + 1)
  {
  }

  /** The failures that count are those among the newest 30 events of the task. */
  lemma RecentFailuresAreOfThirty(log: seq<RunEvent>, provider: string)
    ensures RecentFailures(log, provider) == |BlamedFrom(log, provider, if |log| <= 30 then 0 else |log| - 30)|
  {
    var k := if |log| <= 30 then 0 else |log| - 30;
    assert Recent(Recent(log, 100), 30) == log[k..];
    FailuresAreCounted(log, provider, k);
  }

  // ---- the choice ----

  /** The alternative is the first other provider without recent failures. */
  lemma {:induction false} AlternativeIsFirst(names: seq<string>, preferred: string, log: seq<RunEvent>, i: nat)
    requires i < |names| && Spotless(names[i], preferred, log)
    requires forall j :: 0 <= j < i ==> !Spotless(names[j], preferred, log)
    ensures Alternative(names, preferred, log) == names[i]
    decreases i
  {
    hide RecentFailures;
    if i == 0 {
    } else {
      assert !Spotless(names[0], preferred, log);
      AlternativeIsFirst(names[1..], preferred, log, i - 1);
    }
  }

  /** Without one, the preferred provider stays. */
  lemma {:induction false} NoAlternative(names: seq<string>, preferred: string, log: seq<RunEvent>)
    requires forall i :: 0 <= i < |names| ==> !Spotless(names[i], preferred, log)
    ensures Alternative(names, preferred, log) == preferred
  {
    hide RecentFailures;
    if names == [] {
    } else {
      assert !Spotless(names[0], preferred, log);
      NoAlternative(names[1..], preferred, log);
    }
  }

  predicate Spotless(name: string, preferred: string, log: seq<RunEvent>) {
    name != preferred && RecentFailures(log, name) == 0
  }

  predicate Offers(rows: seq<Capability>, name: string) {
    exists i :: 0 <= i < |rows| && rows[i].provider == name
  }

  lemma OffersAreNames(rows: seq<Capability>, name: string)
    ensures Offers(rows, name) <==> name in Names(rows)
  {
    if Offers(rows, name) {
      var i :| 0 <= i < |rows| && rows[i].provider == name;
      assert Names(rows)[i] == name;
    }
    if name in Names(rows) {
      var i :| 0 <= i < |rows| && Names(rows)[i] == name;
    }
  }

  /** The preference of the stage, else the task's, as far as it is on offer. */
  predicate Wanted(r: Request, rows: seq<Capability>, name: string) {
    name != "" && Offers(rows, name)
    && (name == r.explicitStage
        || (name == r.explicitDefault && (r.explicitStage == "" || !Offers(rows, r.explicitStage))))
  }

  /** Switched off, the previous provider is kept; else a wanted one is taken, unless it failed twice of
      late and another one is spotless; without any preference an unavailable default is asked for. */
  lemma ChoiceBeforeScoring(default: string, r: Request, rows: seq<Capability>, log: seq<RunEvent>, name: string)
    requires rows != []
    ensures !r.policy.allowSwitching && r.previous == Some(name) && Offers(rows, name) ==> Choose(default, r, rows, log) == Some(name)
    ensures Unpinned(r, rows) && Wanted(r, rows, name) && RecentFailures(log, name) < 2 ==>
              Choose(default, r, rows, log) == Some(name)
    ensures Unpinned(r, rows) && Wanted(r, rows, name) && RecentFailures(log, name) >= 2 ==>
              Choose(default, r, rows, log) == Some(Alternative(Names(rows), name, log))
    ensures Unpinned(r, rows) && r.explicitStage == "" && r.explicitDefault == "" && default != "" && !Offers(rows, default) ==>
              Choose(default, r, rows, log) == Some(default)
  {
    hide RecentFailures, Alternative, Scores, Names, Offers;
    OffersAreNames(rows, name);
    OffersAreNames(rows, default);
    OffersAreNames(rows, r.explicitStage);
    OffersAreNames(rows, r.explicitDefault);
    if r.previous.Some? {
      OffersAreNames(rows, r.previous.value);
    }
  }

  predicate Unpinned(r: Request, rows: seq<Capability>) {
    r.policy.allowSwitching || r.previous.None? || !Offers(rows, r.previous.value)
  }

  /** When nothing decides before, the first provider with the greatest score is chosen; and none of the
      scored providers is a named one, so the bonus for named providers never takes part. */
  lemma ChoiceByScore(default: string, r: Request, rows: seq<Capability>, log: seq<RunEvent>) returns (i: nat)
    requires rows != [] && Unpinned(r, rows)
    requires forall name :: !Wanted(r, rows, name)
    requires default == "" || (Offers(rows, default) && default != "local_echo")
             || (!Offers(rows, default) && (r.explicitStage != "" || r.explicitDefault != ""))
    ensures i < |rows| && Choose(default, r, rows, log) == Some(rows[i].provider)
    ensures forall j :: 0 <= j < |rows| ==>
              Score(r, rows[j], RecentFailures(log, rows[j].provider)) <= Score(r, rows[i], RecentFailures(log, rows[i].provider))
    ensures forall j :: 0 <= j < i ==>
              Score(r, rows[j], RecentFailures(log, rows[j].provider)) < Score(r, rows[i], RecentFailures(log, rows[i].provider))
    ensures forall j :: 0 <= j < |rows| && rows[j].provider != "" ==>
              rows[j].provider != r.explicitStage && rows[j].provider != r.explicitDefault
  {
    hide RecentFailures, Score, Offers, Names;
    OffersAreNames(rows, default);
    OffersAreNames(rows, r.explicitStage);
    OffersAreNames(rows, r.explicitDefault);
    if r.previous.Some? {
      OffersAreNames(rows, r.previous.value);
    }
    assert !Wanted(r, rows, r.explicitStage) && !Wanted(r, rows, r.explicitDefault);
    forall j | 0 <= j < |rows| ensures Offers(rows, rows[j].provider) {
      OffersRow(rows, j);
    }
    var scores := Scores(r, rows, log);
    i := FirstMax(scores);
    assert forall j :: 0 <= j < |rows| ==> scores[j] == Score(r, rows[j], RecentFailures(log, rows[j].provider));
  }

  lemma OffersRow(rows: seq<Capability>, j: nat)
    requires j < |rows|
    ensures Offers(rows, rows[j].provider)
  {
  }

  // ---- what the log says about runs ----

  /** The event names a provider and a model as the ones that ran last. */
  predicate NamesRun(e: RunEvent, provider: string, model: string) {
    provider != "" && model != "" && (e == Completion(provider, model) || (e.Switch? && e.toProvider == provider && e.toModel == model))
  }

  predicate NamesSome(e: RunEvent) {
    || (e.Completion? && e.provider != "" && e.model != "")
    || (e.Switch? && e.toProvider != "" && e.toModel != "")
  }

  /** The latest run is what the newest event with both names says. */
  lemma {:induction false} LatestRunIsNewest(events: seq<RunEvent>)
    ensures Latest(events).None? <==> forall i :: 0 <= i < |events| ==> !NamesSome(events[i])
    ensures forall i, p, m ::
              (0 <= i < |events| && NamesRun(events[i], p, m) && (forall j :: i < j < |events| ==> !NamesSome(events[j])))
              ==> Latest(events) == Some((p, m))
  {
    if events == [] {
    } else {
      var n := |events| - 1;
      LatestRunIsNewest(events[..n]);
      assert forall i :: 0 <= i < n ==> events[..n][i] == events[i];
      forall i, p, m | 0 <= i < |events| && NamesRun(events[i], p, m) && (forall j :: i < j < |events| ==> !NamesSome(events[j]))
        ensures Latest(events) == Some((p, m))
      {
        if i < n {
          assert !NamesSome(events[n]);
          assert NamesRun(events[..n][i], p, m);
        }
      }
    }
  }

  function SwitchedAt(events: seq<RunEvent>): set<nat> {
    set i: nat | i < |events| && events[i].Switch?
  }

  function CrossedAt(events: seq<RunEvent>): set<nat> {
    set i: nat | i < |events| && events[i].Switch? && events[i].fromProvider != "" && events[i].fromProvider != events[i].toProvider
  }

  lemma {:induction false} SwitchesAreCounted(events: seq<RunEvent>)
    ensures Switches(events) == |SwitchedAt(events)| && Crossings(events) == |CrossedAt(events)|
  {
    if events == [] {
    } else {
      SwitchesAreCounted(events[..|events| - 1]);
      SwitchStep(events);
      hide SwitchedAt, CrossedAt;
    }
  }

  lemma SwitchStep(events: seq<RunEvent>)
    requires events != []
    ensures var n: nat := |events| - 1;
            && SwitchedAt(events) == SwitchedAt(events[..n]) + (if events[n].Switch? then {n} else {})
            && CrossedAt(events) == CrossedAt(events[..n]) + (if CrossesProviders(events[n]) then {n} else {})
            && n !in SwitchedAt(events[..n]) && n !in CrossedAt(events[..n])
  {
  }

  /** A finished stage run records a switch exactly when its provider or model is not that of the latest run
      in view, and the switch names both sides; a run that raises records none. */
  lemma SwitchesAreRecorded(log: seq<RunEvent>, a: Attempt)
    ensures var ran := log + a.before + a.during;
            var seen := Latest(Recent(log + a.before, 100));
            && (a.result.None? || a.result == seen ==> AfterAttempt(log, a) == ran)
            && (a.result.Some? && seen.None? ==>
                  AfterAttempt(log, a) == ran + [Switch("", "", a.result.value.0, a.result.value.1)])
            && (a.result.Some? && seen.Some? && a.result != seen ==>
                  AfterAttempt(log, a) == ran + [Switch(seen.value.0, seen.value.1, a.result.value.0, a.result.value.1)])
  {
    hide Latest;
    assert log + a.before + a.during + [] == log + a.before + a.during;
  }
}
