/** The penalty arithmetic that decides whether a stage output is good enough. */
module QualityGate {
  import opened EventLog

  /** What the gate looks at in an output.  `length` and the text tests are about the stripped
      text; `keywordInOutput` is the review handler's own test on the unstripped text. */
  datatype Text = Text(
    length: nat, hasSteps: bool, mentionsRisk: bool, missingTopics: nat,
    hasArtifacts: bool, mentionsTests: bool, hasVerdict: bool, hasMarker: bool,
    keywordInText: bool, keywordInOutput: bool, uncheckedItems: nat)

  const CHECKLIST_SIZE := 6

  /** Facts true of any real text: the six checklist items bound the two counters, and what the
      stripped text contains the whole text contains. */
  predicate Realistic(text: Text) {
    && text.missingTopics <= CHECKLIST_SIZE
    && text.uncheckedItems <= CHECKLIST_SIZE
    && (text.keywordInText ==> text.keywordInOutput)
  }

  datatype Demands = Demands(
    minPlan: nat, minExecute: nat, minReview: nat,
    keywordSet: bool, enforceSdlc: bool, raiseVerification: bool)

  datatype Defect =
    | TooShort | NoSteps | NoRisk | MissingTopics(topics: nat) | NoArtifacts | NoEvidence
    | NoVerdict | NoMarker | NoKeyword | Unchecked(items: nat) | NoVerification

  datatype Quality = Quality(passed: bool, score: nat)

  function Weight(d: Defect): nat {
    match d
    case TooShort => 45
    case NoSteps => 20
    case NoRisk => 10
    case MissingTopics(n) => Min(10 + n * 5, 35)
    case NoArtifacts => 25
    case NoEvidence => 20
    case NoVerdict => 20
    case NoMarker => 10
    case NoKeyword => 40
    case Unchecked(n) => Min(12 + n * 4, 45)
    case NoVerification => 15
  }

  function Minimum(d: Demands, stage: Stage): nat {
    match stage
    case Plan => d.minPlan
    case Execute => d.minExecute
    case Review => d.minReview
  }

  /** Which defects an output of the stage has. */
  predicate Has(d: Demands, stage: Stage, text: Text, defect: Defect) {
    match defect
    case TooShort => text.length < Minimum(d, stage)
    case NoSteps => stage.Plan? && !text.hasSteps
    case NoRisk => (stage.Plan? || stage.Review?) && !text.mentionsRisk
    case MissingTopics(n) => stage.Plan? && d.enforceSdlc && n == text.missingTopics && n > 0
    case NoArtifacts => stage.Execute? && !text.hasArtifacts
    case NoEvidence => stage.Execute? && d.enforceSdlc && !text.mentionsTests
    case NoVerdict => stage.Review? && !text.hasVerdict
    case NoMarker => stage.Review? && !text.hasMarker
    case NoKeyword => stage.Review? && d.keywordSet && !text.keywordInText
    case Unchecked(n) => stage.Review? && d.enforceSdlc && n == text.uncheckedItems && n > 0
    case NoVerification => d.raiseVerification && !text.mentionsTests
  }

  function Cost(d: Demands, stage: Stage, text: Text, defect: Defect): nat {
    if Has(d, stage, text, defect) then Weight(defect) else 0
  }

  /** The points lost to the defects that only this stage is examined for. */
  function OwnPenalty(d: Demands, stage: Stage, text: Text): nat {
    match stage
    case Plan =>
      Cost(d, stage, text, NoSteps) + Cost(d, stage, text, NoRisk)
      + Cost(d, stage, text, MissingTopics(text.missingTopics))
    case Execute =>
      Cost(d, stage, text, NoArtifacts) + Cost(d, stage, text, NoEvidence)
    case Review =>
      Cost(d, stage, text, NoVerdict) + Cost(d, stage, text, NoRisk) + Cost(d, stage, text, NoMarker)
      + Cost(d, stage, text, NoKeyword) + Cost(d, stage, text, Unchecked(text.uncheckedItems))
  }

  function Penalty(d: Demands, stage: Stage, text: Text): nat {
    Cost(d, stage, text, TooShort) + OwnPenalty(d, stage, text) + Cost(d, stage, text, NoVerification)
  }

  predicate Passes(d: Demands, stage: Stage, text: Text) {
    Penalty(d, stage, text) <= 30
  }

  method ExamineStage(d: Demands, stage: Stage, text: Text, scoreIn: int) returns (score: int)
    ensures score == scoreIn - OwnPenalty(d, stage, text)
  {
    score := scoreIn;
    if stage == Plan {
      if !text.hasSteps {
        score := score - 20;
      }
      if !text.mentionsRisk {
        score := score - 10;
      }
      if d.enforceSdlc && text.missingTopics > 0 {
        score := score - Min(10 + text.missingTopics * 5, 35);
      }
    }
    if stage == Execute {
      if !text.hasArtifacts {
        score := score - 25;
      }
      if d.enforceSdlc && !text.mentionsTests {
        score := score - 20;
      }
    }
    if stage == Review {
      if !text.hasVerdict {
        score := score - 20;
      }
      if !text.mentionsRisk {
        score := score - 10;
      }
      if !text.hasMarker {
        score := score - 10;
      }
      if d.keywordSet && !text.keywordInText {
        score := score - 40;
      }
      if d.enforceSdlc && text.uncheckedItems > 0 {
        score := score - Min(12 + text.uncheckedItems * 4, 45);
      }
    }
  }

  method StageQualityGate(d: Demands, stage: Stage, text: Text) returns (q: Quality)
    ensures q.score == Max(100 - Penalty(d, stage, text), 0)
    ensures q.passed == Passes(d, stage, text)
  {
    var minimum := d.minExecute;
    if stage == Plan {
      minimum := d.minPlan;
    } else if stage == Review {
      minimum := d.minReview;
    }
    var score := 100;
    if text.length < minimum {
      score := score - 45;
    }
    score := ExamineStage(d, stage, text, score);
    if d.raiseVerification && !text.mentionsTests {
      score := score - 15;
    }
    score := Max(score, 0);
    q := Quality(score >= 70, score);
  }

  /** The review handler's own keyword test. */
  predicate ReviewFails(d: Demands, text: Text, localEcho: bool) {
    d.keywordSet && !text.keywordInOutput && !localEcho
  }

  /** A missing keyword alone costs more than the gate tolerates, so no output that passed the
      gate fails the review handler's keyword test. */
  lemma PassedReviewKeepsKeyword(d: Demands, text: Text, localEcho: bool)
    requires Realistic(text)
    requires Passes(d, Review, text) || localEcho
    ensures !ReviewFails(d, text, localEcho)
  {
    if !localEcho && d.keywordSet {
      assert Cost(d, Review, text, NoKeyword) == if text.keywordInText then 0 else 40;
    }
  }

  /** Exactly which enforced reviews pass: long enough, with the keyword, and the remaining
      defects within 30 points: no more than four checklist items may be unchecked. */
  lemma EnforcedReviewPasses(d: Demands, text: Text)
    requires Realistic(text) && d.enforceSdlc && d.keywordSet
    ensures Passes(d, Review, text)
            <==> && text.length >= d.minReview
                 && text.keywordInText
                 && text.uncheckedItems <= 4
                 && Cost(d, Review, text, NoVerdict) + Cost(d, Review, text, NoRisk)
                    + Cost(d, Review, text, NoMarker) + Cost(d, Review, text, NoVerification)
                    <= 30 - (if text.uncheckedItems == 0 then 0 else 12 + text.uncheckedItems * 4)
  {
    assert Cost(d, Review, text, TooShort) == if text.length < d.minReview then 45 else 0;
    assert Cost(d, Review, text, NoKeyword) == if text.keywordInText then 0 else 40;
  }
}
