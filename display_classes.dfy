/**
 * The style classes the result page gives the model's score and risk level.
 * A score missing from the reply counts as 0, a missing risk level as
 * "Unknown".
 */
module DisplayClasses {

  const HighScore: real := 70.0
  const MediumScore: real := 40.0
  const DefaultScore: real := 0.0
  const DefaultRisk := "Unknown"

  datatype ScoreClass = ScoreHigh | ScoreMedium | ScoreLow {
    /** The CSS class name the page uses. */
    function CssName(): string {
      match this
      case ScoreHigh => "score-high"
      case ScoreMedium => "score-medium"
      case ScoreLow => "score-low"
    }

    /** Orders the classes low < medium < high. */
    function Rank(): nat {
      match this
      case ScoreLow => 0
      case ScoreMedium => 1
      case ScoreHigh => 2
    }
  }

  datatype RiskClass = RiskLow | RiskMedium | RiskHigh {
    function CssName(): string {
      match this
      case RiskLow => "risk-low"
      case RiskMedium => "risk-medium"
      case RiskHigh => "risk-high"
    }
  }

  /** High from 70 up, medium from 40 up to 70, low below 40. */
  function ClassifyScore(score: real): (c: ScoreClass)
    ensures c == ScoreHigh <==> score >= HighScore
    ensures c == ScoreMedium <==> MediumScore <= score < HighScore
    ensures c == ScoreLow <==> score < MediumScore
  {
    if score >= HighScore then ScoreHigh
    else if score >= MediumScore then ScoreMedium
    else ScoreLow
  }

  /** "Low" and "Medium" (exactly, case included) get their own class; every other text is high risk. */
  function ClassifyRisk(risk: string): (c: RiskClass)
    ensures c == RiskLow <==> risk == "Low"
    ensures c == RiskMedium <==> risk == "Medium"
    ensures c == RiskHigh <==> risk != "Low" && risk != "Medium"
  {
    if risk == "Low" then RiskLow
    else if risk == "Medium" then RiskMedium
    else RiskHigh
  }

  /** A higher score never gets a lower class. */
  lemma ScoreClassMonotone(a: real, b: real)
    requires a <= b
    ensures ClassifyScore(a).Rank() <= ClassifyScore(b).Rank()
  {
  }

  /** A reply without a score shows as low, and one without a risk level as high risk. */
  lemma MissingFieldsShowWorstCase()
    ensures ClassifyScore(DefaultScore) == ScoreLow
    ensures ClassifyRisk(DefaultRisk) == RiskHigh
  {
  }

  /** The risk match is case-sensitive: "low" and "High" both read as high risk. */
  lemma RiskMatchIsExact()
    ensures ClassifyRisk("low") == RiskHigh
    ensures ClassifyRisk("High") == RiskHigh
  {
  }
}
