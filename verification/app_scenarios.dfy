/**
 Relations between individual events and concrete event sequences: the
 toggles undo themselves, a second completion of the same kind replaces the
 first, and the selection's fixed tie-break on the states it decides.
 */
module AppScenarios {
  import opened Wrappers
  import opened Types
  import opened App
  import opened AppInvariants

  /** Pressing either toggle twice restores the state exactly. */
  lemma TogglesAreInvolutions(s: State)
    ensures Step(Step(s, SidebarToggled), SidebarToggled) == s
    ensures Step(Step(s, MobileMenuToggled), MobileMenuToggled) == s
  {
  }

  /** Clicking the same navigation entry twice has the effect of clicking it once. */
  lemma NavClickIdempotent(s: State, v: View)
    ensures Step(Step(s, NavClick(v)), NavClick(v)) == Step(s, NavClick(v))
  {
  }

  /**
   Two survey completions in a row leave only the second record, whatever
   events come after them, as long as no further survey completes.
   */
  lemma {:induction false} LatestSurveyWins(s: State, r1: SurveyResult, r2: SurveyResult, rest: seq<Event>)
    requires forall i :: 0 <= i < |rest| ==> !rest[i].SurveyCompleted?
    ensures Run(s, [SurveyCompleted(r1), SurveyCompleted(r2)] + rest).survey == Some(r2)
  {
    var es := [SurveyCompleted(r1), SurveyCompleted(r2)] + rest;
    RunSlotsAreLatest(s, es);
    LatestSurveySkipsTail(es, 2);
  }

  /** Scanning back past events that are not survey completions finds the one at `k - 1`. */
  lemma {:induction false} LatestSurveySkipsTail(es: seq<Event>, k: nat)
    requires 0 < k <= |es|
    requires es[k - 1].SurveyCompleted?
    requires forall i :: k <= i < |es| ==> !es[i].SurveyCompleted?
    ensures LatestSurvey(es) == Some(es[k - 1].surveyRecord)
    decreases |es|
  {
    if |es| > k {
      var init := es[..|es| - 1];
      assert forall i :: k <= i < |init| ==> init[i] == es[i];
      LatestSurveySkipsTail(init, k);
    }
  }

  /** A fresh session forced into the report view shows the empty state. */
  lemma FreshReportIsEmpty()
    ensures RenderReportPane(Step(Init(), NavClick(Report))) == EmptyState
    ensures !Enabled(Init(), NavClick(Report))
  {
  }

  /** Completing the survey and then the analysis shows the analysis report. */
  lemma SurveyThenAnalysisShowsAnalysis(r: SurveyResult, a: MammogramAnalysis)
    ensures var s := Run(Init(), [SurveyCompleted(r), AnalysisCompleted(a)]);
      s.lastReportType == MammogramKind &&
      SelectReport(s) == Some(Selected(AnalysisData(a), MammogramKind))
  {
  }

  /**
   With only the analysis slot filled and the tag still naming the survey,
   the fallback selects the analysis; such a state breaks `PreferredFilled`,
   so by `FallbackUnreachable` no event sequence leads to it.
   */
  lemma FallbackOnlyOutsideInvariant(s: State)
    requires s.survey.None? && s.analysis.Some? && s.lastReportType == SurveyKind
    ensures SelectReport(s) == Some(Selected(AnalysisData(s.analysis.value), MammogramKind))
    ensures !PreferredFilled(s)
  {
  }

  /** With both slots filled, the tag alone decides which record is shown. */
  lemma BothFilledFollowsTag(s: State)
    requires s.survey.Some? && s.analysis.Some?
    ensures s.lastReportType == MammogramKind ==> SelectReport(s) == Some(Selected(AnalysisData(s.analysis.value), MammogramKind))
    ensures s.lastReportType == SurveyKind ==> SelectReport(s) == Some(Selected(SurveyData(s.survey.value), SurveyKind))
  {
  }
}
