/** The level enumerations shared by scoring, candidates, proposals and alerts. */
module RiskModels {

  datatype RiskLevel = Low | Medium | High | Critical

  datatype ConfidenceLevel = HighConfidence | MediumConfidence | LowConfidence | InsufficientData

  function LevelRank(level: RiskLevel): nat {
    match level
    case Low => 1
    case Medium => 2
    case High => 3
    case Critical => 4
  }

  function ConfidenceRank(confidence: ConfidenceLevel): nat {
    match confidence
    case InsufficientData => 0
    case LowConfidence => 1
    case MediumConfidence => 2
    case HighConfidence => 3
  }
}
