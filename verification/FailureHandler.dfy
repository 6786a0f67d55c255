/** Classification of a failed stage: may it be retried in place, or must the task be replanned? */
module FailureHandler {
  import opened EventLog

  datatype Verdict = Verdict(category: Category, retryAllowed: bool, shouldReplan: bool)

  predicate ExecutionFailure(body: Body, cycle: int) {
    (body.WorkspaceFailed? || body.RunFailed?) && (body.cycle == 0 || body.cycle == cycle)
  }

  /** The newest execution failure of the cycle; one without a cycle counts for every cycle. */
  function LatestFailure(log: Log, cycle: int): Option<Body> {
    if log == [] then None
    else if ExecutionFailure(Last(log).body, cycle) then Some(Last(log).body)
    else LatestFailure(Init(log), cycle)
  }

  function CategoryOf(failure: Option<Body>): Category {
    match failure
    case Some(WorkspaceFailed(_, category, _)) => category
    case Some(RunFailed(_, _)) => ProviderFailure
    case _ => StageFailure
  }

  function ReasonOf(failure: Option<Body>, error: Reason): Reason {
    match failure
    case Some(WorkspaceFailed(_, _, Some(reason))) => reason
    case Some(RunFailed(_, Some(reason))) => reason
    case _ => error
  }

  function Judge(category: Category, reason: Reason): Verdict {
    if category in {EnvironmentFailure, PolicyBlock, RiskGuardrail} then Verdict(category, false, false)
    else if category == ProviderFailure then Verdict(category, true, false)
    else if category in {VerificationFailure, AcceptanceFailure} then Verdict(category, false, true)
    else if reason.noChanges then Verdict(NoArtifactChange, false, true)
    else if reason.verificationFailed then Verdict(VerificationFailure, false, true)
    else if reason.mentionsProvider then Verdict(ProviderFailure, true, false)
    else if reason.mentionsApproval then Verdict(PolicyBlock, false, false)
    else Verdict(category, true, false)
  }

  function Classify(log: Log, cycle: int, error: Reason, taxonomyV2: bool): Verdict {
    var failure := LatestFailure(log, cycle);
    var verdict := Judge(CategoryOf(failure), ReasonOf(failure, error));
    if taxonomyV2 then verdict else Verdict(verdict.category, true, false)
  }

  method ClassifyFailure(events: Log, cycle: int, error: Reason, taxonomyV2: bool) returns (verdict: Verdict)
    ensures verdict == Classify(events, cycle, error, taxonomyV2)
  {
    var reason := error;
    var category := StageFailure;
    var retryAllowed := true;
    var shouldReplan := false;
    var i := |events|;
    assert events[..i] == events;
    ghost var found := LatestFailure(events, cycle);
    while i > 0
      invariant 0 <= i <= |events|
      invariant category == StageFailure && reason == error
      invariant LatestFailure(events, cycle) == LatestFailure(events[..i], cycle)
    {
      assert Init(events[..i]) == events[..i - 1];
      i := i - 1;
      var body := events[i].body;
      if (body.WorkspaceFailed? || body.RunFailed?) && body.cycle != 0 && body.cycle != cycle {
        continue;
      }
      if body.WorkspaceFailed? {
        category := body.category;
        reason := if body.reason.Some? then body.reason.value else reason;
        break;
      }
      if body.RunFailed? {
        category := ProviderFailure;
        reason := if body.reason.Some? then body.reason.value else reason;
        break;
      }
    }
    assert category == CategoryOf(found) && reason == ReasonOf(found, error);
    if category == EnvironmentFailure {
      retryAllowed := false;
    } else if category == ProviderFailure {
      retryAllowed := true;
    } else if category in {PolicyBlock, RiskGuardrail} {
      retryAllowed := false;
    } else if category in {VerificationFailure, AcceptanceFailure} {
      retryAllowed := false;
      shouldReplan := true;
    } else if reason.noChanges {
      category := NoArtifactChange;
      retryAllowed := false;
      shouldReplan := true;
    } else if reason.verificationFailed {
      category := VerificationFailure;
      retryAllowed := false;
      shouldReplan := true;
    } else if reason.mentionsProvider {
      category := ProviderFailure;
      retryAllowed := true;
    } else if reason.mentionsApproval {
      category := PolicyBlock;
      retryAllowed := false;
    }
    verdict := Verdict(category, !taxonomyV2 || retryAllowed, taxonomyV2 && shouldReplan);
  }
}
