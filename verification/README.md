# View-state controller of the Q-Vision diagnostics shell

The application is a single-page shell with five views: the home dashboard,
the risk-assessment survey, the mammogram upload/analysis flow, the
generated report and the visualisation lab. Its only real logic is the
controller in `App.tsx`. The controller owns six pieces of state:

- the current view;
- a survey result slot;
- a mammogram-analysis result slot;
- the `lastReportType` tag, naming the kind completed most recently;
- the sidebar-collapsed toggle;
- the mobile-menu-open toggle.

The controller reacts to discrete UI events. When the report view is
rendered, it picks which stored result to show.

This project models that controller as a pure reducer:

- `wrappers.dfy` (`Wrappers`): the `Option` type used for the nullable slots.
- `types.dfy` (`Types`): the two result records of `types.ts`. They are
  carried as values. The controller never reads a field of either record.
- `app.dfy` (`App`): the state, each event handler as a pure function, and
  the reducer `Step`. It also holds the report selection `SelectReport`,
  the report-view branch `RenderReportPane`, the navigation list
  `NavEntries`, and `Enabled`. `Enabled` says which events the rendered page
  can emit in a given state.
- `app_invariants.dfy` (`AppInvariants`): `Run`, which applies a sequence of
  events, and the inductive invariants over such runs.
- `app_scenarios.dfy` (`AppScenarios`): relations between individual events,
  and concrete event sequences.

The main results:

- Result slots are only ever overwritten. After a run, each slot holds the
  latest record of its kind.
- In every state reachable from the initial one, once any slot is filled, the
  slot named by `lastReportType` is filled too. So the fallback at
  App.tsx:225-234 (survey, then mammogram) is never taken in a reachable
  state. The fallback does fire in unreachable states, and
  `FallbackOnlyOutsideInvariant` exhibits one.
- The `return null` at App.tsx:236 cannot be reached in any state, reachable
  or not.
- Consider the events the page can emit, where a navigation click is only
  ever on a listed entry. The toggles are always rendered. Completions are
  allowed in every state, because a producer may call back after its view
  was left. A plain
  button fires only while it is rendered (163-164 on home, 215-216 in the
  empty state, 242 in the report); allowing buttons in every state
  over-approximates the page, which is safe because no button opens the
  report view.
  Along such events, the report view never shows its empty state. The empty
  state is reachable only when `Step` is given a navigation to the report
  view directly.
  `FreshReportIsEmpty` shows that case. `Step` accepts every event in every
  state, as the handlers do.

A navigation entry click (App.tsx:34-37) opens its view and also closes the
mobile menu. The plain buttons (App.tsx:163-164, 215-216, 242) change only
the view. The model therefore has two events: `NavClick`, for an entry
click, and `Press`, for a button press.

The desktop sidebar is always part of the page; CSS only hides it on narrow
screens. So `Enabled` allows a navigation click whatever the mobile-menu flag
is.

## Model

| member | source | states |
|---|---|---|
| App.Init | App.tsx:13-18 | a fresh session opens on the home view, with both slots empty, the tag on survey and both toggles off |
| App.CompleteSurvey | App.tsx:20-24 | survey completion stores the record, tags it survey and opens the report. The analysis slot and both toggles are unchanged. The report pane then shows exactly that record, tagged survey |
| App.CompleteAnalysis | App.tsx:26-30 | the mirror case: stores the analysis, tags it mammogram and opens the report. The survey slot and both toggles are unchanged. The pane then shows exactly that analysis |
| App.Navigate | App.tsx:34-37 | an entry click opens the chosen view and closes the mobile menu. Results, tag and sidebar flag are unchanged |
| App.ShowView | App.tsx:163-164 | a plain button (home, empty-state or report back) changes the view and nothing else |
| App.ToggleSidebar | App.tsx:76 | negates the sidebar flag and leaves every other field alone |
| App.ToggleMobileMenu | App.tsx:121 | negates the mobile-menu flag and leaves every other field alone |
| App.Slot | App.tsx:222 | the slot a kind names is filled exactly when its record is present, and it yields that stored record itself, as data of that kind |
| App.SelectReport | App.tsx:220-234 | the selection is empty exactly when both slots are empty. Its tag always names the slot its data came from. A filled preferred slot wins; otherwise survey is tried before mammogram |
| App.RenderReportPane | App.tsx:207-245 | the report area is shown only in the report view. The empty state appears exactly when both slots are empty. A shown report is exactly the selection (239-241), its tag matches its data, and the `return null` branch is unreachable |
| App.NavEntries | App.tsx:83-91 | the four fixed entries are always listed first, in display order: home, survey, upload, lab. The report entry is listed exactly when a slot is filled, which is exactly when selection would find a report |
| App.ButtonTarget | App.tsx:163-164 | no plain button (home, empty-state at 215-216, report back at 242) opens the report view; only the report's back action leads home |
| App.Step | App.tsx:205-206 | the reducer dispatching each event to its handler (also 76, 121). A completion stores its record, sets the tag and opens the report; an entry click opens its view and closes the mobile menu; a button opens its target and keeps the menu flag; a toggle negates its own flag and keeps the view. The report view opens only by a completion or by the report entry. The sidebar flag changes only through its toggle, the menu flag only through its toggle or an entry click, and only completions touch the results or the tag |
| App.Enabled | App.tsx:88-90 | an event can be emitted unless it is a click on the report entry while both slots are empty; the entry is not listed then (also 134-136) |
| AppInvariants.StepKeepsSlots | App.tsx:20-30 | no event empties a slot. A slot changes only by its own completion event, to that event's record. The tag changes only on a completion |
| AppInvariants.RunSlotsAreLatest | App.tsx:20-30 | after any run, each slot holds the latest record of its kind, or its starting content if none was completed. The tag names the latest completed kind |
| AppInvariants.RunNeverClearsSlots | App.tsx:13-30 | a slot filled before a run of events is still filled after it |
| AppInvariants.StepPreservesPreferredFilled | App.tsx:20-30 | every event keeps "some slot filled implies the slot named by the tag is filled" |
| AppInvariants.RunPreservesPreferredFilled | App.tsx:20-30 | that invariant survives any sequence of events |
| AppInvariants.ReachablePreferredFilled | App.tsx:13-16 | every state reachable from the initial state satisfies the invariant |
| AppInvariants.FallbackUnreachable | App.tsx:225-234 | in every reachable state with a result, selection returns the preferred slot itself, so the fallback never fires |
| AppInvariants.EnabledStepPreservesUiInvariant | App.tsx:88-90 | an event the page can emit keeps the invariant, and also keeps "report view open implies a result exists" |
| AppInvariants.UiRunPreservesUiInvariant | App.tsx:134-136 | both parts of that invariant survive every event sequence the page can emit |
| AppInvariants.UiNeverShowsEmptyState | App.tsx:207-219 | from a fresh session, along events the page can emit, the report empty state is never rendered |
| AppScenarios.TogglesAreInvolutions | App.tsx:76 | pressing either toggle twice restores the state exactly |
| AppScenarios.NavClickIdempotent | App.tsx:34-37 | clicking the same entry twice equals clicking it once |
| AppScenarios.LatestSurveyWins | App.tsx:21 | after two survey completions, only the second record is kept, whatever non-survey events follow |
| AppScenarios.FreshReportIsEmpty | App.tsx:207-217 | a fresh session forced into the report view shows the empty state. The page itself does not list the report entry then |
| AppScenarios.SurveyThenAnalysisShowsAnalysis | App.tsx:26-30 | survey then analysis leaves the tag on mammogram, and selection returns the analysis |
| AppScenarios.FallbackOnlyOutsideInvariant | App.tsx:226-233 | with only the analysis present and the tag on survey, the fallback selects the analysis tagged mammogram. Such a state breaks the invariant |
| AppScenarios.BothFilledFollowsTag | App.tsx:222-223 | with both slots filled, the tag alone decides which record is shown |

## Left out

- All JSX layout, CSS classes, icons, animations and the static display numbers: they are presentation only.
- The internals of the survey, upload/analysis and report components and of the visualisation components are not part of this model. Each producer appears only as the completion event it emits.
- The record fields of `types.ts` are carried but never interpreted. All numbers, `circuitDepth` included, are `real` rather than IEEE doubles, because the controller never computes with them.
- React's state batching and re-rendering: each handler is one atomic transition.
- Which navigation list, desktop sidebar or mobile overlay, an entry click came from: both lists call the same handler.
