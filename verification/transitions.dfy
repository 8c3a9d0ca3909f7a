/** The report and problem transition tables of backend/feedback/transitions.py. */
module Transitions {
  import opened Common

  datatype TriageState = New | Linked | Dismissed
  datatype ReportAction = Link | Unlink | Dismiss | Restore

  datatype ProblemState = Open | InProgress | FixAvailable | NotPlanned
  datatype ProblemAction = Start | Stop | Decline | Reopen

  const REPORT_TRANSITIONS: map<ReportAction, (set<TriageState>, TriageState)> :=
    map[
      Link := ({New, Linked}, Linked),
      Unlink := ({Linked}, New),
      Dismiss := ({New}, Dismissed),
      Restore := ({Dismissed}, New)
    ]

  const PROBLEM_TRANSITIONS: map<ProblemAction, (set<ProblemState>, ProblemState)> :=
    map[
      Start := ({Open}, InProgress),
      Stop := ({InProgress}, Open),
      Decline := ({Open, InProgress}, NotPlanned),
      Reopen := ({NotPlanned}, Open)
    ]

  const FIX_CONFIRMATION_SOURCES: set<ProblemState> := {Open, InProgress}

  /** `None` stands for InvalidTransition. */
  function Check<A, S>(rules: map<A, (set<S>, S)>, action: A, from: S): Option<S> {
    if action !in rules || from !in rules[action].0 then None else Some(rules[action].1)
  }

  function CheckReport(action: ReportAction, from: TriageState): Option<TriageState> {
    Check(REPORT_TRANSITIONS, action, from)
  }

  function CheckProblem(action: ProblemAction, from: ProblemState): Option<ProblemState> {
    Check(PROBLEM_TRANSITIONS, action, from)
  }

  function CheckFixConfirmation(from: ProblemState): Option<ProblemState> {
    if from in FIX_CONFIRMATION_SOURCES then Some(FixAvailable) else None
  }

  /** No table row enters or leaves `FixAvailable`: only a confirmation enters it, and
      only an issue reopening leaves it. */
  lemma TableAvoidsFixAvailable(action: ProblemAction, from: ProblemState)
    ensures CheckProblem(action, FixAvailable) == None
    ensures CheckProblem(action, from) != Some(FixAvailable)
    ensures CheckFixConfirmation(FixAvailable) == None
  {
    assert action in PROBLEM_TRANSITIONS;
    match action case Start => case Stop => case Decline => case Reopen =>
  }
}
