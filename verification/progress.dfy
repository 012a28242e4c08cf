/**
 * Check-runner bookkeeping (fedchecker/ui/progress.py): the task list shown
 * while checks run and the two runners that collect one result per check.
 * Rendering is reduced to the rows a table would show.
 */
module Progress {
  import opened Wrappers
  import opened Status
  import opened Probe

  /** One line of the task list; `result` is None until the task reports. */
  datatype Task = Task(name: string, status: string, result: Option<string>)

  datatype TaskProgress = TaskProgress(tasks: seq<Task>)

  /** `add_task`: appends a task and returns its index. */
  function AddTask(tp: TaskProgress, name: string, status: string): (r: (TaskProgress, nat))
    ensures |r.0.tasks| == |tp.tasks| + 1 && r.1 == |tp.tasks|
    ensures r.0.tasks[..r.1] == tp.tasks
    ensures r.0.tasks[r.1] == Task(name, status, None)
  {
    (TaskProgress(tp.tasks + [Task(name, status, None)]), |tp.tasks|)
  }

  /** `update_task`: only an index inside the list changes anything. */
  function UpdateTask(tp: TaskProgress, index: int, status: string, result: Option<string>): (r: TaskProgress)
    ensures |r.tasks| == |tp.tasks|
    ensures 0 <= index < |tp.tasks| ==> r.tasks[index] == Task(tp.tasks[index].name, status, result)
    ensures forall j :: 0 <= j < |tp.tasks| && j != index ==> r.tasks[j] == tp.tasks[j]
    ensures !(0 <= index < |tp.tasks|) ==> r == tp
  {
    if 0 <= index < |tp.tasks| then
      TaskProgress(tp.tasks[index := Task(tp.tasks[index].name, status, result)])
    else tp
  }

  const IconUnknown := "[dim]?[/]"
  const IconRunning := "[bold cyan]⟳[/]"

  /** `_get_status_icon`: total, with a fallback for unknown status names. */
  function TaskIcon(status: string): (icon: string)
    ensures icon == IconUnknown <==> status !in {"pending", "running", "success", "warning", "failed", "skipped"}
    ensures status == "success" ==> icon == IconPass
    ensures status == "failed" ==> icon == IconFail
    ensures status == "warning" ==> icon == IconWarn
    ensures status in {"pending", "skipped"} ==> icon == IconSkip
  {
    if status == "pending" then IconSkip
    else if status == "running" then IconRunning
    else if status == "success" then IconPass
    else if status == "warning" then IconWarn
    else if status == "failed" then IconFail
    else if status == "skipped" then IconSkip
    else IconUnknown
  }

  /** A rendered row: icon, (possibly coloured) name and result text. */
  datatype Row = Row(icon: string, name: string, result: string)

  /** The markup `render` wraps a task name in. */
  function StyledName(t: Task): string {
    if t.status == "running" then "[bold cyan]" + t.name + "[/]"
    else if t.status == "success" then "[green]" + t.name + "[/]"
    else if t.status == "failed" then "[red]" + t.name + "[/]"
    else if t.status == "warning" then "[yellow]" + t.name + "[/]"
    else t.name
  }

  /** `render`: one row per task, in order. */
  function Render(tp: TaskProgress): (rows: seq<Row>)
    ensures |rows| == |tp.tasks|
    ensures forall i :: 0 <= i < |rows| ==> rows[i].icon == TaskIcon(tp.tasks[i].status)
    ensures forall i :: 0 <= i < |rows| ==> rows[i].result == tp.tasks[i].result.GetOr("")
  {
    seq(|tp.tasks|, i requires 0 <= i < |tp.tasks| =>
      Row(TaskIcon(tp.tasks[i].status), StyledName(tp.tasks[i]), tp.tasks[i].result.GetOr("")))
  }

  // ---------------------------------------------------------------- ProgressManager

  /** What `run_with_progress` records for one task. */
  function ProgressOutcome(description: string, a: Attempt): (r: CheckResult)
    ensures a.Returned? ==> r == a.result
    ensures a.Raised? ==> r == Plain(description, Error, "Error: " + a.msg)
  {
    match a
    case Returned(res) => res
    case Raised(msg) => Plain(description, Error, "Error: " + msg)
  }

  /** `run_with_progress`: one result per task, in order; a raising task does not stop the others. */
  function RunWithProgress(tasks: seq<(string, Attempt)>): (rs: seq<CheckResult>)
    ensures |rs| == |tasks|
    ensures forall i :: 0 <= i < |rs| ==> rs[i] == ProgressOutcome(tasks[i].0, tasks[i].1)
    decreases |tasks|
  {
    if |tasks| == 0 then []
    else [ProgressOutcome(tasks[0].0, tasks[0].1)] + RunWithProgress(tasks[1..])
  }

  // ---------------------------------------------------------------- AnimatedCheckRunner

  /** What `run_checks` records for one check: the exception text alone becomes the message. */
  function CheckOutcome(name: string, a: Attempt): CheckResult {
    match a
    case Returned(res) => res
    case Raised(msg) => Plain(name, Error, msg)
  }

  /** The task status a finished check leaves behind. */
  function FinalStatus(a: Attempt): (s: string)
    ensures s in {"success", "warning", "skipped", "failed"}
  {
    if a.Raised? then "failed"
    else match a.result.status
      case Pass => "success"
      case Warn => "warning"
      case Skip => "skipped"
      case _ => "failed"
  }

  /** The task's final icon is the icon of the result the runner returns for it. */
  lemma FinalIconMatchesResult(name: string, a: Attempt)
    ensures TaskIcon(FinalStatus(a)) == Icon(CheckOutcome(name, a).status)
  {
  }

  /** The task entry a finished check leaves behind. */
  function FinishedTask(name: string, a: Attempt): Task {
    Task(name, FinalStatus(a), Some(CheckOutcome(name, a).message))
  }

  /**
   * `run_checks`: registers every check as a pending task, then runs them in
   * order, marking each running and finally with its outcome.
   */
  method RunChecks(checks: seq<(string, Attempt)>) returns (results: seq<CheckResult>, tp: TaskProgress)
    ensures |results| == |checks| && |tp.tasks| == |checks|
    ensures forall i :: 0 <= i < |checks| ==> results[i] == CheckOutcome(checks[i].0, checks[i].1)
    ensures forall i :: 0 <= i < |checks| ==> tp.tasks[i] == FinishedTask(checks[i].0, checks[i].1)
  {
    tp := TaskProgress([]);
    var k := 0;
    while k < |checks|
      invariant 0 <= k <= |checks| && |tp.tasks| == k
      invariant forall j :: 0 <= j < k ==> tp.tasks[j] == Task(checks[j].0, "pending", None)
    {
      var added := AddTask(tp, checks[k].0, "pending");
      tp := added.0;
      k := k + 1;
    }
    results := [];
    var i := 0;
    while i < |checks|
      invariant 0 <= i <= |checks| && |results| == i && |tp.tasks| == |checks|
      invariant forall j :: 0 <= j < i ==> results[j] == CheckOutcome(checks[j].0, checks[j].1)
      invariant forall j :: 0 <= j < i ==> tp.tasks[j] == FinishedTask(checks[j].0, checks[j].1)
      invariant forall j :: i <= j < |checks| ==> tp.tasks[j].name == checks[j].0
    {
      var name := checks[i].0;
      tp := UpdateTask(tp, i, "running", None);
      var outcome := CheckOutcome(name, checks[i].1);
      results := results + [outcome];
      tp := UpdateTask(tp, i, FinalStatus(checks[i].1), Some(outcome.message));
      i := i + 1;
    }
  }
}
