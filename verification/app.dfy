/**
 The view-state controller of the single-page shell: which view is open,
 the two result slots, the tag naming the most recently completed kind of
 report, and the two layout toggles. Every event handler is one atomic,
 total transition `State -> State`; the report view's selection and its
 rendering branch are pure functions of the state.
 */
module App {
  import opened Wrappers
  import opened Types

  /** The five views the main area can show. */
  datatype View = Home | Survey | Upload | Report | Lab

  /** Which kind of report was completed last (the `lastReportType` tag). */
  datatype ReportKind = SurveyKind | MammogramKind

  /** The controller's whole state; each field is one piece of component state. */
  datatype State = State(
    view: View,
    survey: Option<SurveyResult>,
    analysis: Option<MammogramAnalysis>,
    lastReportType: ReportKind,
    sidebarCollapsed: bool,
    mobileMenuOpen: bool)

  /** The record handed to the report renderer. */
  datatype ReportData = SurveyData(surveyResult: SurveyResult) | AnalysisData(analysisResult: MammogramAnalysis)

  /** A selected report: the data and the kind tag passed alongside it. */
  datatype Selected = Selected(data: ReportData, kind: ReportKind)

  /** What the report branch of the main area renders. */
  datatype ReportPane =
    | Hidden                        // the current view is not the report view
    | EmptyState                    // "No Reports Generated" with two buttons
    | ReportShown(selected: Selected)
    | Nothing                       // the selection came back empty: `return null`

  /** True when at least one result slot holds a record. */
  predicate HasResult(s: State) {
    s.survey.Some? || s.analysis.Some?
  }

  /** The content of the slot that the kind `k` names, as report data. */
  function Slot(s: State, k: ReportKind): (d: Option<ReportData>)
    ensures d.Some? <==> (if k == SurveyKind then s.survey.Some? else s.analysis.Some?)
    ensures d.Some? ==> (d.value.SurveyData? <==> k == SurveyKind)
    // the data is the stored record itself
    ensures d.Some? && d.value.SurveyData? ==> s.survey == Some(d.value.surveyResult)
    ensures d.Some? && d.value.AnalysisData? ==> s.analysis == Some(d.value.analysisResult)
  {
    match k
    case SurveyKind => if s.survey.Some? then Some(SurveyData(s.survey.value)) else None
    case MammogramKind => if s.analysis.Some? then Some(AnalysisData(s.analysis.value)) else None
  }

  /** The state a fresh page session starts in. */
  function Init(): (s: State)
    ensures s.view == Home
    ensures !HasResult(s)
    ensures !s.sidebarCollapsed && !s.mobileMenuOpen
    ensures s.lastReportType == SurveyKind
  {
    State(Home, None, None, SurveyKind, false, false)
  }

  /** The survey flow finished with `r`: keep it, prefer it, open the report. */
  function CompleteSurvey(s: State, r: SurveyResult): (t: State)
    ensures t.survey == Some(r) && t.lastReportType == SurveyKind && t.view == Report
    ensures t.analysis == s.analysis
    ensures t.sidebarCollapsed == s.sidebarCollapsed && t.mobileMenuOpen == s.mobileMenuOpen
    ensures RenderReportPane(t) == ReportShown(Selected(SurveyData(r), SurveyKind))
  {
    s.(survey := Some(r), lastReportType := SurveyKind, view := Report)
  }

  /** The scan analysis finished with `a`: keep it, prefer it, open the report. */
  function CompleteAnalysis(s: State, a: MammogramAnalysis): (t: State)
    ensures t.analysis == Some(a) && t.lastReportType == MammogramKind && t.view == Report
    ensures t.survey == s.survey
    ensures t.sidebarCollapsed == s.sidebarCollapsed && t.mobileMenuOpen == s.mobileMenuOpen
    ensures RenderReportPane(t) == ReportShown(Selected(AnalysisData(a), MammogramKind))
  {
    s.(analysis := Some(a), lastReportType := MammogramKind, view := Report)
  }

  /** A navigation entry was clicked: open its view and close the mobile menu. */
  function Navigate(s: State, v: View): (t: State)
    ensures t.view == v && !t.mobileMenuOpen
    ensures t.survey == s.survey && t.analysis == s.analysis
    ensures t.lastReportType == s.lastReportType && t.sidebarCollapsed == s.sidebarCollapsed
  {
    s.(view := v, mobileMenuOpen := false)
  }

  /** A plain button switched the view; nothing else changes. */
  function ShowView(s: State, v: View): (t: State)
    ensures t.view == v
    ensures t.survey == s.survey && t.analysis == s.analysis
    ensures t.lastReportType == s.lastReportType
    ensures t.sidebarCollapsed == s.sidebarCollapsed && t.mobileMenuOpen == s.mobileMenuOpen
  {
    s.(view := v)
  }

  /** The collapse button negates the sidebar flag and nothing else. */
  function ToggleSidebar(s: State): (t: State)
    ensures t.sidebarCollapsed == !s.sidebarCollapsed
    ensures t.mobileMenuOpen == s.mobileMenuOpen && t.view == s.view
    ensures t.survey == s.survey && t.analysis == s.analysis && t.lastReportType == s.lastReportType
  {
    s.(sidebarCollapsed := !s.sidebarCollapsed)
  }

  /** The mobile header button negates the menu flag and nothing else. */
  function ToggleMobileMenu(s: State): (t: State)
    ensures t.mobileMenuOpen == !s.mobileMenuOpen
    ensures t.sidebarCollapsed == s.sidebarCollapsed && t.view == s.view
    ensures t.survey == s.survey && t.analysis == s.analysis && t.lastReportType == s.lastReportType
  {
    s.(mobileMenuOpen := !s.mobileMenuOpen)
  }

  /** The buttons outside the navigation lists that switch the view. */
  datatype Button =
    | StartAssessment   // home page, to the survey
    | UploadMammogram   // home page, to the upload flow
    | GoToSurvey        // report empty state, to the survey
    | UploadScan        // report empty state, to the upload flow
    | ReportBack        // the report's back action, to home

  /** The view each button opens. */
  function ButtonTarget(b: Button): (v: View)
    // no plain button opens the report view
    ensures v != Report
    ensures v == Home <==> b == ReportBack
  {
    match b
    case StartAssessment => Survey
    case UploadMammogram => Upload
    case GoToSurvey => Survey
    case UploadScan => Upload
    case ReportBack => Home
  }

  /** Every discrete UI event the controller reacts to. */
  datatype Event =
    | SurveyCompleted(surveyRecord: SurveyResult)
    | AnalysisCompleted(analysisRecord: MammogramAnalysis)
    | NavClick(target: View)
    | Press(button: Button)
    | SidebarToggled
    | MobileMenuToggled

  /** The reducer: one event handler applied to the state. */
  function Step(s: State, e: Event): (t: State)
    // the report view opens only by a completion or by the report entry
    ensures t.view == Report && s.view != Report ==>
      e.SurveyCompleted? || e.AnalysisCompleted? || e == NavClick(Report)
    // what each event does
    ensures e.SurveyCompleted? ==>
      t.survey == Some(e.surveyRecord) && t.lastReportType == SurveyKind && t.view == Report
    ensures e.AnalysisCompleted? ==>
      t.analysis == Some(e.analysisRecord) && t.lastReportType == MammogramKind && t.view == Report
    ensures e.NavClick? ==> t.view == e.target && !t.mobileMenuOpen
    ensures e.Press? ==> t.view == ButtonTarget(e.button) && t.mobileMenuOpen == s.mobileMenuOpen
    ensures e.MobileMenuToggled? ==> t.mobileMenuOpen == !s.mobileMenuOpen && t.view == s.view
    ensures e.SidebarToggled? ==> t.view == s.view && t.mobileMenuOpen == s.mobileMenuOpen
    // the sidebar flag changes only through its toggle; the menu flag only
    // through its toggle or an entry click, which closes it
    ensures t.sidebarCollapsed != s.sidebarCollapsed <==> e.SidebarToggled?
    ensures t.mobileMenuOpen != s.mobileMenuOpen ==> e.MobileMenuToggled? || e.NavClick?
    // toggles and navigation never touch the results or the tag
    ensures !e.SurveyCompleted? && !e.AnalysisCompleted? ==>
      t.survey == s.survey && t.analysis == s.analysis && t.lastReportType == s.lastReportType
  {
    match e
    case SurveyCompleted(r) => CompleteSurvey(s, r)
    case AnalysisCompleted(a) => CompleteAnalysis(s, a)
    case NavClick(v) => Navigate(s, v)
    case Press(b) => ShowView(s, ButtonTarget(b))
    case SidebarToggled => ToggleSidebar(s)
    case MobileMenuToggled => ToggleMobileMenu(s)
  }

  /**
   The report to show: the slot named by `lastReportType` if it is filled,
   otherwise the survey slot, otherwise the analysis slot, otherwise none.
   */
  function SelectReport(s: State): (r: Option<Selected>)
    // nothing is selected exactly when both slots are empty
    ensures r.None? <==> !HasResult(s)
    // the kind tag always names the slot the data came from
    ensures r.Some? ==> Slot(s, r.value.kind) == Some(r.value.data)
    // a filled preferred slot always wins
    ensures Slot(s, s.lastReportType).Some? ==> r.Some? && r.value.kind == s.lastReportType
    // otherwise the survey slot is tried before the analysis slot
    ensures Slot(s, s.lastReportType).None? && s.survey.Some? ==> r.Some? && r.value.kind == SurveyKind
  {
    var preferred := Slot(s, s.lastReportType);
    if preferred.Some? then Some(Selected(preferred.value, s.lastReportType))
    else if s.survey.Some? then Some(Selected(SurveyData(s.survey.value), SurveyKind))
    else if s.analysis.Some? then Some(Selected(AnalysisData(s.analysis.value), MammogramKind))
    else None
  }

  /** The report branch of the main area: empty state, report, or nothing. */
  function RenderReportPane(s: State): (p: ReportPane)
    ensures p.Hidden? <==> s.view != Report
    ensures p.EmptyState? <==> s.view == Report && !HasResult(s)
    ensures p.ReportShown? ==> Slot(s, p.selected.kind) == Some(p.selected.data)
    // the report shown is exactly the selection
    ensures p.ReportShown? ==> SelectReport(s) == Some(p.selected)
    // the `return null` branch cannot be taken in any state
    ensures !p.Nothing?
  {
    if s.view != Report then Hidden
    else if !HasResult(s) then EmptyState
    else match SelectReport(s)
      case None => Nothing
      case Some(sel) => ReportShown(sel)
  }

  /** The views the navigation lists offer, in display order. */
  function NavEntries(s: State): (vs: seq<View>)
    ensures |vs| >= 4 && vs[..4] == [Home, Survey, Upload, Lab]
    ensures forall v :: v in vs <==> v != Report || HasResult(s)
    ensures Report in vs <==> HasResult(s)
    ensures Report in vs <==> SelectReport(s).Some?
    ensures |vs| == if HasResult(s) then 5 else 4
  {
    var fixed := [Home, Survey, Upload, Lab];
    assert forall v :: v != Report ==> v in fixed by {
      forall v | v != Report ensures v in fixed {
        assert v == fixed[0] || v == fixed[1] || v == fixed[2] || v == fixed[3];
      }
    }
    fixed + (if HasResult(s) then [Report] else [])
  }

  /**
   The events the rendered page can emit in state `s`. A navigation entry can
   be clicked only while it is listed; completions, buttons and toggles are
   accepted in every state, since a producer may call back after its view
   was left.
   */
  predicate Enabled(s: State, e: Event)
    ensures Enabled(s, e) <==> e != NavClick(Report) || HasResult(s)
  {
    match e
    case NavClick(v) => v in NavEntries(s)
    case _ => true
  }
}
