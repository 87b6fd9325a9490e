/**
 The two result records a completion event carries into the controller.
 The controller stores them and tests them for presence but never reads a
 field, so the fields are kept only for the record's identity; numbers are
 `real` (no floating-point behaviour is modelled) and strings are
 `seq<char>`.
 */
module Types {
  import opened Wrappers

  /** The risk tiers a producer may assign, listed from lowest to highest. */
  datatype RiskLevel = Low | Intermediate | Elevated | High

  /** One named risk factor of a survey answer sheet. */
  datatype Factor = Factor(name: string, value: string)

  /** The record the questionnaire hands over when it completes. */
  datatype SurveyResult = SurveyResult(
    id: string,
    date: string,
    riskLevel: RiskLevel,
    riskScore: real,
    factors: seq<Factor>,
    timestamp: Option<string>)

  /** One region flagged by the scan analysis. */
  datatype Finding = Finding(region: string, probability: real, kind: string)

  /** The optional circuit metrics attached to a scan analysis. */
  datatype QuantumMetrics = QuantumMetrics(
    entanglementEntropy: real,
    coherenceTime: string,
    circuitDepth: real)

  /** The record the upload/analysis flow hands over when a scan completes. */
  datatype MammogramAnalysis = MammogramAnalysis(
    id: string,
    imageUrl: Option<string>,
    riskScore: real,
    riskLevel: RiskLevel,
    timestamp: string,
    findings: seq<Finding>,
    quantumMetrics: Option<QuantumMetrics>,
    features: Option<seq<string>>,
    notes: Option<string>)
}
