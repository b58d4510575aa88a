/** The lifecycle tables of tasks, approvals, material requests and project imports, over whole runs. */
module Lifecycles {
  import opened Models
  import Approvals

  datatype TaskStatus = Proposed | Planned | InProgress | Blocked | Completed | Cancelled

  datatype ImportStatus =
    | Uploaded | Extracting | Draft | Validating | NeedsReview | Confirmed | Importing | Imported
    | ExtractionFailed | ValidationFailed | ImportFailed | Cancelled

  // ----- the tables -----

  function TaskTargets(s: TaskStatus): set<TaskStatus> {
    match s
    case Proposed => {TaskStatus.Planned, TaskStatus.Cancelled}
    case Planned => {TaskStatus.InProgress, TaskStatus.Blocked, TaskStatus.Cancelled}
    case InProgress => {TaskStatus.Blocked, TaskStatus.Completed, TaskStatus.Cancelled}
    case Blocked => {TaskStatus.InProgress, TaskStatus.Cancelled}
    case Completed => {}
    case Cancelled => {}
  }

  function ApprovalTargets(s: ApprovalStatus): set<ApprovalStatus> {
    if s == ApprovalStatus.Pending then
      {ApprovalStatus.Approved, ApprovalStatus.Rejected, ApprovalStatus.Expired, ApprovalStatus.Cancelled}
    else {}
  }

  function RequestTargets(s: RequestStatus): set<RequestStatus> {
    match s
    case Proposed => {RequestStatus.AwaitingApproval, RequestStatus.Cancelled}
    case AwaitingApproval => {RequestStatus.Approved, RequestStatus.Rejected, RequestStatus.Cancelled}
    case Approved => {RequestStatus.Submitted, RequestStatus.Delayed, RequestStatus.Cancelled}
    case Rejected => {}
    case Submitted => {RequestStatus.Confirmed, RequestStatus.Delayed, RequestStatus.Cancelled}
    case Confirmed => {RequestStatus.Delayed, RequestStatus.Delivered, RequestStatus.Cancelled}
    case Delayed => {RequestStatus.Confirmed, RequestStatus.Delivered}
    case Delivered => {}
    case Cancelled => {}
  }

  function ImportTargets(s: ImportStatus): set<ImportStatus> {
    match s
    case Uploaded => {ImportStatus.Extracting, ImportStatus.Cancelled}
    case Extracting => {ImportStatus.Draft, ImportStatus.ExtractionFailed, ImportStatus.Cancelled}
    case Draft => {ImportStatus.Validating, ImportStatus.Cancelled}
    case Validating => {ImportStatus.NeedsReview, ImportStatus.ValidationFailed, ImportStatus.Cancelled}
    case NeedsReview => {ImportStatus.Confirmed, ImportStatus.Cancelled}
    case Confirmed => {ImportStatus.Importing}
    case Importing => {ImportStatus.Imported, ImportStatus.ImportFailed}
    case ExtractionFailed => {ImportStatus.Extracting, ImportStatus.Cancelled}
    case ValidationFailed => {ImportStatus.Extracting, ImportStatus.Cancelled}
    case ImportFailed => {ImportStatus.Importing, ImportStatus.Cancelled}
    case Imported => {}
    case Cancelled => {}
  }

  /** Which exceptions to the task table a command asks for. */
  datatype TaskMode = TaskMode(humanCorrection: bool, reconciledCompletion: bool)

  /** `ensure_task_transition` raises nothing. */
  predicate TaskMayMove(current: TaskStatus, target: TaskStatus, mode: TaskMode) {
    if current == target then true
    else if mode.humanCorrection then current == TaskStatus.Completed && target == TaskStatus.InProgress
    else if mode.reconciledCompletion && current == TaskStatus.Planned && target == TaskStatus.Completed then true
    else target in TaskTargets(current)
  }

  predicate ApprovalMayMove(current: ApprovalStatus, target: ApprovalStatus) {
    current == target || target in ApprovalTargets(current)
  }

  predicate RequestMayMove(current: RequestStatus, target: RequestStatus) {
    current == target || target in RequestTargets(current)
  }

  /** Unlike the other tables, the import table refuses a move to the same status. */
  predicate ImportMayMove(current: ImportStatus, target: ImportStatus) {
    target in ImportTargets(current)
  }

  // ----- runs -----

  ghost predicate IsRun<S>(run: seq<S>, mayMove: (S, S) -> bool) {
    run != [] && forall i | 0 <= i < |run| - 1 :: mayMove(run[i], run[i + 1])
  }

  /** Both happened in this order, before the end of the run. */
  ghost predicate Passed<S(!new)>(run: seq<S>, first: S, second: S) {
    exists i, j :: 0 <= i < j < |run| && run[i] == first && run[j] == second
  }

  lemma PassedLater<S(!new)>(run: seq<S>, n: nat, first: S, second: S)
    requires n <= |run| && Passed(run[..n], first, second)
    ensures Passed(run, first, second)
  {
    var i, j :| 0 <= i < j < n && run[..n][i] == first && run[..n][j] == second;
    assert run[i] == first && run[j] == second;
  }

  /** A status with no move out of it, other than to itself, is the last one of every run that reaches it. */
  lemma {:induction false} TerminalAbsorbs<S(!new)>(run: seq<S>, mayMove: (S, S) -> bool, i: nat, j: nat)
    requires IsRun(run, mayMove) && i <= j < |run|
    requires forall s :: mayMove(run[i], s) ==> s == run[i]
    ensures run[j] == run[i]
    decreases j
  {
    if i < j {
      TerminalAbsorbs(run, mayMove, i, j - 1);
      assert mayMove(run[j - 1], run[j]);
    }
  }

  // ----- material requests -----

  predicate BeyondApproval(s: RequestStatus) {
    s in {RequestStatus.Submitted, RequestStatus.Confirmed, RequestStatus.Delayed, RequestStatus.Delivered}
  }

  /** A request that started as a proposal and is submitted, confirmed, delayed or delivered was awaiting
      approval and was approved after that. */
  lemma {:induction false} RequestPassedApproval(run: seq<RequestStatus>)
    requires IsRun(run, RequestMayMove) && run[0] == RequestStatus.Proposed
    ensures BeyondApproval(run[|run| - 1]) || run[|run| - 1] == RequestStatus.Approved ==>
              Passed(run, RequestStatus.AwaitingApproval, RequestStatus.Approved)
    ensures run[|run| - 1] !in {RequestStatus.Proposed, RequestStatus.Cancelled} ==>
            RequestStatus.AwaitingApproval in run
    decreases |run|
  {
    var n := |run| - 1;
    if 0 < n {
      var init := run[..n];
      RequestPassedApproval(init);
      assert RequestMayMove(run[n - 1], run[n]);
      assert run == init + [run[n]];
      if Passed(init, RequestStatus.AwaitingApproval, RequestStatus.Approved) {
        PassedLater(run, n, RequestStatus.AwaitingApproval, RequestStatus.Approved);
      } else if run[n] == RequestStatus.Approved {
        assert run[n - 1] == RequestStatus.AwaitingApproval;
        assert Passed(run, RequestStatus.AwaitingApproval, RequestStatus.Approved);
      }
    }
  }

  lemma RequestTerminals(run: seq<RequestStatus>, i: nat, j: nat)
    requires IsRun(run, RequestMayMove) && i <= j < |run|
    requires run[i] in {RequestStatus.Rejected, RequestStatus.Delivered, RequestStatus.Cancelled}
    ensures run[j] == run[i]
  {
    TerminalAbsorbs(run, RequestMayMove, i, j);
  }

  /** The approval service's move of a request follows the table exactly when the request was awaiting
      approval or the decision is a rejection. */
  lemma ServiceMoveFollowsTable(r: MaterialRequest, approved: bool, at: int)
    requires Approvals.Awaits(r.status)
    ensures RequestMayMove(r.status, Approvals.MovedRequest(r, approved, at).status) <==>
            r.status == RequestStatus.AwaitingApproval || !approved
  {
  }

  /** A move by the table, or by a decision of the approval service. */
  predicate RequestMayMoveAnyhow(current: RequestStatus, target: RequestStatus) {
    RequestMayMove(current, target)
    || (Approvals.Awaits(current) && (target == Approvals.RequestOutcome(true)
                                      || target == Approvals.RequestOutcome(false)))
  }

  /** With decisions of the service among the moves, a request beyond approval was still approved before. */
  lemma {:induction false} ApprovedInAnyRun(run: seq<RequestStatus>)
    requires IsRun(run, RequestMayMoveAnyhow) && run[0] == RequestStatus.Proposed
    ensures BeyondApproval(run[|run| - 1]) ==> Passed(run, RequestStatus.Proposed, RequestStatus.Approved)
    decreases |run|
  {
    var n := |run| - 1;
    if 0 < n {
      var init := run[..n];
      ApprovedInAnyRun(init);
      assert RequestMayMoveAnyhow(run[n - 1], run[n]);
      if Passed(init, RequestStatus.Proposed, RequestStatus.Approved) {
        PassedLater(run, n, RequestStatus.Proposed, RequestStatus.Approved);
      }
    }
  }

  /** But not after awaiting approval: a decision on a proposal skips that status. */
  lemma DecisionSkipsAwaiting()
    ensures var run := [RequestStatus.Proposed, RequestStatus.Approved, RequestStatus.Submitted];
            IsRun(run, RequestMayMoveAnyhow) && !IsRun(run, RequestMayMove) && RequestStatus.AwaitingApproval !in run
  {
    var run := [RequestStatus.Proposed, RequestStatus.Approved, RequestStatus.Submitted];
    assert !RequestMayMove(run[0], run[1]);
  }

  // ----- approvals -----

  /** An approval is decided at most once: after its first move it never moves again. */
  lemma ApprovalMovesOnce(run: seq<ApprovalStatus>, i: nat, j: nat)
    requires IsRun(run, ApprovalMayMove) && i < j < |run| && run[i] != run[i + 1]
    ensures run[i] == ApprovalStatus.Pending && run[j] == run[i + 1]
  {
    TerminalAbsorbs(run, ApprovalMayMove, i + 1, j);
  }

  // ----- tasks -----

  datatype TaskStep = TaskStep(mode: TaskMode, target: TaskStatus)

  /** A task's history: the status it starts in and the accepted commands. */
  ghost predicate IsTaskRun(start: TaskStatus, steps: seq<TaskStep>) {
    forall i | 0 <= i < |steps| :: TaskMayMove(StatusAt(start, steps, i), steps[i].target, steps[i].mode)
  }

  ghost function StatusAt(start: TaskStatus, steps: seq<TaskStep>, n: nat): TaskStatus
    requires n <= |steps|
  {
    if n == 0 then start else steps[n - 1].target
  }

  ghost predicate CorrectedBetween(steps: seq<TaskStep>, i: nat, j: nat)
    requires j <= |steps|
  {
    exists k :: i <= k < j && steps[k].mode.humanCorrection && steps[k].target == TaskStatus.InProgress
  }

  /** A completed task stays completed until a human correction puts it back in progress; a cancelled one
      stays cancelled whatever is asked for. */
  lemma {:induction false} TaskTerminals(start: TaskStatus, steps: seq<TaskStep>, i: nat, j: nat)
    requires IsTaskRun(start, steps) && i <= j <= |steps|
    ensures StatusAt(start, steps, i) == TaskStatus.Cancelled ==> StatusAt(start, steps, j) == TaskStatus.Cancelled
    ensures StatusAt(start, steps, i) == TaskStatus.Completed && StatusAt(start, steps, j) != TaskStatus.Completed ==>
              CorrectedBetween(steps, i, j)
    decreases j
  {
    if i < j {
      TaskTerminals(start, steps, i, j - 1);
      assert TaskMayMove(StatusAt(start, steps, j - 1), steps[j - 1].target, steps[j - 1].mode);
      if StatusAt(start, steps, i) == TaskStatus.Completed && StatusAt(start, steps, j) != TaskStatus.Completed
         && StatusAt(start, steps, j - 1) == TaskStatus.Completed {
        assert steps[j - 1].mode.humanCorrection && steps[j - 1].target == TaskStatus.InProgress;
      }
    }
  }

  ghost predicate WasIn(start: TaskStatus, steps: seq<TaskStep>, n: nat, s: TaskStatus)
    requires n <= |steps|
  {
    exists i :: 0 <= i <= n && StatusAt(start, steps, i) == s
  }

  /** The step completes a planned task as a reconciled completion. */
  ghost predicate Reconciles(start: TaskStatus, steps: seq<TaskStep>, k: nat)
    requires k < |steps|
  {
    steps[k].mode.reconciledCompletion && StatusAt(start, steps, k) == TaskStatus.Planned
      && steps[k].target == TaskStatus.Completed
  }

  ghost predicate EverReconciled(start: TaskStatus, steps: seq<TaskStep>, n: nat)
    requires n <= |steps|
  {
    exists k :: 0 <= k < n && Reconciles(start, steps, k)
  }

  lemma WasInLater(start: TaskStatus, steps: seq<TaskStep>, n: nat, s: TaskStatus)
    requires n < |steps| && (WasIn(start, steps, n, s) || StatusAt(start, steps, n + 1) == s)
    ensures WasIn(start, steps, n + 1, s)
  {
    if WasIn(start, steps, n, s) {
      var i :| 0 <= i <= n && StatusAt(start, steps, i) == s;
      assert 0 <= i <= n + 1 && StatusAt(start, steps, i) == s;
    } else {
      assert StatusAt(start, steps, n + 1) == s;
    }
  }

  lemma EarlyMoves(current: TaskStatus, target: TaskStatus, mode: TaskMode)
    requires TaskMayMove(current, target, mode)
    ensures current == TaskStatus.Proposed ==>
            target == TaskStatus.Proposed || target == TaskStatus.Planned || target == TaskStatus.Cancelled
    ensures current == TaskStatus.Cancelled ==> target == TaskStatus.Cancelled
  {
  }

  /** A task proposed at first was planned before any work on it. */
  lemma {:induction false} TaskWasPlanned(start: TaskStatus, steps: seq<TaskStep>, n: nat)
    requires IsTaskRun(start, steps) && start == TaskStatus.Proposed && n <= |steps|
    ensures var now := StatusAt(start, steps, n);
            now != TaskStatus.Proposed && now != TaskStatus.Cancelled ==> WasIn(start, steps, n, TaskStatus.Planned)
    decreases n
  {
    if 0 < n {
      TaskWasPlanned(start, steps, n - 1);
      EarlyMoves(StatusAt(start, steps, n - 1), steps[n - 1].target, steps[n - 1].mode);
      hide WasIn, TaskMayMove, TaskTargets, IsTaskRun;
      if WasIn(start, steps, n - 1, TaskStatus.Planned) || StatusAt(start, steps, n) == TaskStatus.Planned {
        WasInLater(start, steps, n - 1, TaskStatus.Planned);
      }
    }
  }

  lemma CompletingMove(current: TaskStatus, mode: TaskMode)
    requires TaskMayMove(current, TaskStatus.Completed, mode)
    ensures || current == TaskStatus.Completed || current == TaskStatus.InProgress
            || (current == TaskStatus.Planned && mode.reconciledCompletion)
  {
  }

  lemma EverReconciledLater(start: TaskStatus, steps: seq<TaskStep>, n: nat)
    requires n < |steps| && (EverReconciled(start, steps, n) || Reconciles(start, steps, n))
    ensures EverReconciled(start, steps, n + 1)
  {
    hide Reconciles;
  }

  /** A task that was not completed at first is completed only out of work in progress, or by a reconciled
      completion of a planned task. */
  lemma {:induction false} CompletionIsAccounted(start: TaskStatus, steps: seq<TaskStep>, n: nat)
    requires IsTaskRun(start, steps) && start != TaskStatus.Completed && n <= |steps|
    ensures StatusAt(start, steps, n) == TaskStatus.Completed ==>
              WasIn(start, steps, n, TaskStatus.InProgress) || EverReconciled(start, steps, n)
    decreases n
  {
    hide TaskMayMove, TaskTargets, WasIn, EverReconciled;
    if n == 0 {
    } else if StatusAt(start, steps, n) == TaskStatus.Completed {
      var before := StatusAt(start, steps, n - 1);
      CompletionIsAccounted(start, steps, n - 1);
      CompletingMove(before, steps[n - 1].mode);
      if before == TaskStatus.InProgress {
        WasInNow(start, steps, n - 1);
      }
      if WasIn(start, steps, n - 1, TaskStatus.InProgress) {
        WasInLater(start, steps, n - 1, TaskStatus.InProgress);
      } else {
        EverReconciledLater(start, steps, n - 1);
      }
    }
  }

  lemma WasInNow(start: TaskStatus, steps: seq<TaskStep>, n: nat)
    requires n <= |steps|
    ensures WasIn(start, steps, n, StatusAt(start, steps, n))
  {
  }

  // ----- project imports -----

  predicate AfterReview(s: ImportStatus) {
    s in {ImportStatus.Confirmed, ImportStatus.Importing, ImportStatus.Imported, ImportStatus.ImportFailed}
  }

  /** Where a run stands between the first review and the end. */
  lemma {:induction false} ImportPassedReview(run: seq<ImportStatus>)
    requires IsRun(run, ImportMayMove) && run[0] == ImportStatus.Uploaded
    ensures AfterReview(run[|run| - 1]) ==> Passed(run, ImportStatus.NeedsReview, ImportStatus.Confirmed)
    ensures run[|run| - 1] == ImportStatus.Imported ==> Passed(run, ImportStatus.Confirmed, ImportStatus.Importing)
    ensures run[|run| - 1] in {ImportStatus.Importing, ImportStatus.ImportFailed} ==>
            Passed(run, ImportStatus.Confirmed, ImportStatus.Importing)
    decreases |run|
  {
    var n := |run| - 1;
    if 0 < n {
      var init := run[..n];
      ImportPassedReview(init);
      assert ImportMayMove(run[n - 1], run[n]);
      if Passed(init, ImportStatus.NeedsReview, ImportStatus.Confirmed) {
        PassedLater(run, n, ImportStatus.NeedsReview, ImportStatus.Confirmed);
      } else if run[n] == ImportStatus.Confirmed {
        assert run[n - 1] == ImportStatus.NeedsReview;
        assert Passed(run, ImportStatus.NeedsReview, ImportStatus.Confirmed);
      }
      if Passed(init, ImportStatus.Confirmed, ImportStatus.Importing) {
        PassedLater(run, n, ImportStatus.Confirmed, ImportStatus.Importing);
      } else if run[n] == ImportStatus.Importing && run[n - 1] == ImportStatus.Confirmed {
        assert Passed(run, ImportStatus.Confirmed, ImportStatus.Importing);
      }
    }
  }

  /** Once confirmed, an import never goes back to extraction, validation or review. */
  lemma {:induction false} ImportNeverGoesBack(run: seq<ImportStatus>, i: nat, j: nat)
    requires IsRun(run, ImportMayMove) && i <= j < |run| && AfterReview(run[i])
    ensures AfterReview(run[j]) || run[j] == ImportStatus.Cancelled
    decreases j
  {
    if i < j {
      ImportNeverGoesBack(run, i, j - 1);
      assert ImportMayMove(run[j - 1], run[j]);
    }
  }

  /** An imported or cancelled import is at the end of its run, and no run stays where it is. */
  lemma ImportTerminals(run: seq<ImportStatus>, i: nat)
    requires IsRun(run, ImportMayMove) && i < |run|
    ensures run[i] in {ImportStatus.Imported, ImportStatus.Cancelled} ==> i == |run| - 1
    ensures i + 1 < |run| ==> run[i + 1] != run[i]
  {
    if i + 1 < |run| {
      assert ImportMayMove(run[i], run[i + 1]);
    }
  }

  // ----- the tables as lists of moves -----

  /** A material request changes its status by these moves and no others. */
  lemma RequestMoves(current: RequestStatus, target: RequestStatus)
    requires current != target
    ensures RequestMayMove(current, target) <==>
            (current, target) in {
              (RequestStatus.Proposed, RequestStatus.AwaitingApproval),
              (RequestStatus.Proposed, RequestStatus.Cancelled),
              (RequestStatus.AwaitingApproval, RequestStatus.Approved),
              (RequestStatus.AwaitingApproval, RequestStatus.Rejected),
              (RequestStatus.AwaitingApproval, RequestStatus.Cancelled),
              (RequestStatus.Approved, RequestStatus.Submitted), (RequestStatus.Approved, RequestStatus.Delayed),
              (RequestStatus.Approved, RequestStatus.Cancelled), (RequestStatus.Submitted, RequestStatus.Confirmed),
              (RequestStatus.Submitted, RequestStatus.Delayed), (RequestStatus.Submitted, RequestStatus.Cancelled),
              (RequestStatus.Confirmed, RequestStatus.Delayed), (RequestStatus.Confirmed, RequestStatus.Delivered),
              (RequestStatus.Confirmed, RequestStatus.Cancelled), (RequestStatus.Delayed, RequestStatus.Confirmed),
              (RequestStatus.Delayed, RequestStatus.Delivered)}
  {
  }

  /** A task changes its status by these moves, by a reported completion of a planned one, and by a correction of a
      completed one; a correction does nothing else. */
  lemma TaskMoves(current: TaskStatus, target: TaskStatus, mode: TaskMode)
    requires current != target
    ensures TaskMayMove(current, target, mode) <==>
            if mode.humanCorrection then current == TaskStatus.Completed && target == TaskStatus.InProgress
            else
              || (mode.reconciledCompletion && current == TaskStatus.Planned && target == TaskStatus.Completed)
              || (current, target) in {
                   (TaskStatus.Proposed, TaskStatus.Planned), (TaskStatus.Proposed, TaskStatus.Cancelled),
                   (TaskStatus.Planned, TaskStatus.InProgress), (TaskStatus.Planned, TaskStatus.Blocked),
                   (TaskStatus.Planned, TaskStatus.Cancelled), (TaskStatus.InProgress, TaskStatus.Blocked),
                   (TaskStatus.InProgress, TaskStatus.Completed), (TaskStatus.InProgress, TaskStatus.Cancelled),
                   (TaskStatus.Blocked, TaskStatus.InProgress), (TaskStatus.Blocked, TaskStatus.Cancelled)}
  {
  }

  /** An import changes its stage by these moves and no others; staying is no move. */
  lemma ImportMoves(current: ImportStatus, target: ImportStatus)
    ensures ImportMayMove(current, target) <==>
            (current, target) in {
              (ImportStatus.Uploaded, ImportStatus.Extracting), (ImportStatus.Uploaded, ImportStatus.Cancelled),
              (ImportStatus.Extracting, ImportStatus.Draft), (ImportStatus.Extracting, ImportStatus.ExtractionFailed),
              (ImportStatus.Extracting, ImportStatus.Cancelled), (ImportStatus.Draft, ImportStatus.Validating),
              (ImportStatus.Draft, ImportStatus.Cancelled), (ImportStatus.Validating, ImportStatus.NeedsReview),
              (ImportStatus.Validating, ImportStatus.ValidationFailed),
              (ImportStatus.Validating, ImportStatus.Cancelled), (ImportStatus.NeedsReview, ImportStatus.Confirmed),
              (ImportStatus.NeedsReview, ImportStatus.Cancelled), (ImportStatus.Confirmed, ImportStatus.Importing),
              (ImportStatus.Importing, ImportStatus.Imported), (ImportStatus.Importing, ImportStatus.ImportFailed),
              (ImportStatus.ExtractionFailed, ImportStatus.Extracting),
              (ImportStatus.ExtractionFailed, ImportStatus.Cancelled),
              (ImportStatus.ValidationFailed, ImportStatus.Extracting),
              (ImportStatus.ValidationFailed, ImportStatus.Cancelled),
              (ImportStatus.ImportFailed, ImportStatus.Importing), (ImportStatus.ImportFailed, ImportStatus.Cancelled)}
  {
  }
}
