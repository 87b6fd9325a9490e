/**
 Properties of whole event sequences run from the initial state: the result
 slots are only ever overwritten, `lastReportType` always names a filled slot
 once any slot is filled (so the selection fallback never fires in a
 reachable state), and along the events the page can actually emit the
 report view is never open without a result.
 */
module AppInvariants {
  import opened Wrappers
  import opened Types
  import opened App

  /** The state after applying `es` to `s`, oldest event first. */
  function Run(s: State, es: seq<Event>): (t: State)
    decreases |es|
  {
    if |es| == 0 then s else Step(Run(s, es[..|es| - 1]), es[|es| - 1])
  }

  /** `es` is a sequence the rendered page can emit from `s`: every navigation click is on a listed entry. */
  predicate UiTrace(s: State, es: seq<Event>)
    decreases |es|
  {
    |es| == 0 || (UiTrace(s, es[..|es| - 1]) && Enabled(Run(s, es[..|es| - 1]), es[|es| - 1]))
  }

  /** The record of the most recent survey completion in `es`, if any. */
  function LatestSurvey(es: seq<Event>): (r: Option<SurveyResult>)
    ensures r.Some? ==> SurveyCompleted(r.value) in es
    ensures r.None? <==> forall i :: 0 <= i < |es| ==> !es[i].SurveyCompleted?
    decreases |es|
  {
    if |es| == 0 then None
    else if es[|es| - 1].SurveyCompleted? then Some(es[|es| - 1].surveyRecord)
    else LatestSurvey(es[..|es| - 1])
  }

  /** The record of the most recent analysis completion in `es`, if any. */
  function LatestAnalysis(es: seq<Event>): (r: Option<MammogramAnalysis>)
    ensures r.Some? ==> AnalysisCompleted(r.value) in es
    ensures r.None? <==> forall i :: 0 <= i < |es| ==> !es[i].AnalysisCompleted?
    decreases |es|
  {
    if |es| == 0 then None
    else if es[|es| - 1].AnalysisCompleted? then Some(es[|es| - 1].analysisRecord)
    else LatestAnalysis(es[..|es| - 1])
  }

  /** The kind of the most recent completion event in `es`, if any. */
  function LatestKind(es: seq<Event>): (r: Option<ReportKind>)
    ensures r.Some? <==> exists i :: 0 <= i < |es| && (es[i].SurveyCompleted? || es[i].AnalysisCompleted?)
    decreases |es|
  {
    if |es| == 0 then None
    else if es[|es| - 1].SurveyCompleted? then Some(SurveyKind)
    else if es[|es| - 1].AnalysisCompleted? then Some(MammogramKind)
    else LatestKind(es[..|es| - 1])
  }

  /** Once any slot is filled, the slot `lastReportType` names is filled. */
  predicate PreferredFilled(s: State) {
    HasResult(s) ==> Slot(s, s.lastReportType).Some?
  }

  /** `PreferredFilled`, and the report view is open only when a result exists. */
  predicate UiInvariant(s: State) {
    PreferredFilled(s) && (s.view == Report ==> HasResult(s))
  }

  /** No event empties a slot; a slot changes only by its own completion event. */
  lemma StepKeepsSlots(s: State, e: Event)
    ensures s.survey.Some? ==> Step(s, e).survey.Some?
    ensures s.analysis.Some? ==> Step(s, e).analysis.Some?
    ensures Step(s, e).survey != s.survey ==> e.SurveyCompleted? && Step(s, e).survey == Some(e.surveyRecord)
    ensures Step(s, e).analysis != s.analysis ==> e.AnalysisCompleted? && Step(s, e).analysis == Some(e.analysisRecord)
    ensures Step(s, e).lastReportType != s.lastReportType ==> e.SurveyCompleted? || e.AnalysisCompleted?
  {
  }

  /**
   After any run, each slot holds the latest record of its kind among the
   events, or its starting content if no such event occurred; the tag names
   the latest completed kind, or keeps its starting value.
   */
  lemma {:induction false} RunSlotsAreLatest(s: State, es: seq<Event>)
    ensures Run(s, es).survey == (if LatestSurvey(es).Some? then LatestSurvey(es) else s.survey)
    ensures Run(s, es).analysis == (if LatestAnalysis(es).Some? then LatestAnalysis(es) else s.analysis)
    ensures Run(s, es).lastReportType == (if LatestKind(es).Some? then LatestKind(es).value else s.lastReportType)
    decreases |es|
  {
    if |es| > 0 {
      RunSlotsAreLatest(s, es[..|es| - 1]);
    }
  }

  /** A slot filled before a run is still filled after it. */
  lemma {:induction false} RunNeverClearsSlots(s: State, es: seq<Event>)
    ensures s.survey.Some? ==> Run(s, es).survey.Some?
    ensures s.analysis.Some? ==> Run(s, es).analysis.Some?
    decreases |es|
  {
    if |es| > 0 {
      RunNeverClearsSlots(s, es[..|es| - 1]);
      StepKeepsSlots(Run(s, es[..|es| - 1]), es[|es| - 1]);
    }
  }

  /** Every event preserves `PreferredFilled`, whether or not the page could emit it. */
  lemma StepPreservesPreferredFilled(s: State, e: Event)
    requires PreferredFilled(s)
    ensures PreferredFilled(Step(s, e))
  {
  }

  /** `PreferredFilled` survives any run. */
  lemma {:induction false} RunPreservesPreferredFilled(s: State, es: seq<Event>)
    requires PreferredFilled(s)
    ensures PreferredFilled(Run(s, es))
    decreases |es|
  {
    if |es| > 0 {
      RunPreservesPreferredFilled(s, es[..|es| - 1]);
      StepPreservesPreferredFilled(Run(s, es[..|es| - 1]), es[|es| - 1]);
    }
  }

  /** Every state reachable from the initial one satisfies `PreferredFilled`. */
  lemma {:induction false} ReachablePreferredFilled(es: seq<Event>)
    ensures PreferredFilled(Run(Init(), es))
  {
    RunPreservesPreferredFilled(Init(), es);
  }

  /**
   In every reachable state the selection is the preferred slot itself: the
   fallback to the survey slot and then the analysis slot is never taken.
   */
  lemma {:induction false} FallbackUnreachable(es: seq<Event>)
    ensures var s := Run(Init(), es);
      HasResult(s) ==>
        Slot(s, s.lastReportType).Some? &&
        SelectReport(s) == Some(Selected(Slot(s, s.lastReportType).value, s.lastReportType))
  {
    ReachablePreferredFilled(es);
  }

  /** An event the page can emit preserves `UiInvariant`. */
  lemma EnabledStepPreservesUiInvariant(s: State, e: Event)
    requires UiInvariant(s)
    requires Enabled(s, e)
    ensures UiInvariant(Step(s, e))
  {
    StepPreservesPreferredFilled(s, e);
  }

  /** `UiInvariant` survives every sequence the page can emit. */
  lemma {:induction false} UiRunPreservesUiInvariant(s: State, es: seq<Event>)
    requires UiInvariant(s)
    requires UiTrace(s, es)
    ensures UiInvariant(Run(s, es))
    decreases |es|
  {
    if |es| > 0 {
      UiRunPreservesUiInvariant(s, es[..|es| - 1]);
      EnabledStepPreservesUiInvariant(Run(s, es[..|es| - 1]), es[|es| - 1]);
    }
  }

  /**
   Along the events the page can emit from a fresh session, the report pane
   never shows its empty state: the report view opens only through a
   completion or through the report entry, which is listed only once a
   result exists.
   */
  lemma {:induction false} UiNeverShowsEmptyState(es: seq<Event>)
    requires UiTrace(Init(), es)
    ensures !RenderReportPane(Run(Init(), es)).EmptyState?
  {
    UiRunPreservesUiInvariant(Init(), es);
  }
}
