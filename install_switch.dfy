/**
 * The installer activity of an interpreter package: one button that offers
 * Install or Uninstall, a progress indicator, and a marker of the task in
 * flight. Installing and uninstalling run as background jobs; their
 * completion writes the persisted installed flag, broadcasts the new state
 * and flips the button.
 *
 * Abstractions: the installer and uninstaller factories are reduced to their
 * outcome (a job was created, or the factory threw); a started job is recorded
 * in `executed`, `pending` says that it has not yet called back, and its one
 * completion is a later call of `OnTaskFinished`;
 * broadcasts are appended to a log; the preference store is the stored value
 * of the installed flag.
 */
module InstallSwitch {
  import opened Wrappers
  import Preferences

  /** `Main.RunningTask`; the field `mCurrentTask` is an `Option<RunningTask>`, `None` for null. */
  datatype RunningTask = Install | Uninstall

  /** The main button after `prepareInstallButton` or `prepareUninstallButton`. */
  datatype Button = InstallButton | UninstallButton {

    /** The button's text. */
    function Label(): (text: string) {
      if InstallButton? then "Install" else "Uninstall"
    }

    /** The task the button's click handler requests. */
    function Handler(): (kind: RunningTask) {
      if InstallButton? then Install else Uninstall
    }
  }

  /** What the installer or uninstaller factory did. */
  datatype FactoryOutcome = JobCreated | FactoryThrew

  /** The two broadcast actions (`ACTION_INTERPRETER_ADDED`, `ACTION_INTERPRETER_REMOVED`). */
  datatype Action = InterpreterAdded | InterpreterRemoved

  /** A broadcast intent: its action and its data URI. */
  datatype Broadcast = Broadcast(action: Action, data: string)

  /**
   * `broadcastInstallationStateChange`: ADDED when installed, REMOVED when not,
   * about the package `id`.
   */
  function Notice(id: string, installed: bool): (b: Broadcast)
    ensures b.action == InterpreterAdded <==> installed
    ensures b.data == "package:" + id
  {
    Broadcast(if installed then InterpreterAdded else InterpreterRemoved, "package:" + id)
  }

  /** Everything the activity's operations read or change. */
  datatype SwitchState = SwitchState(
    id: string,                   // the package name, mId
    task: Option<RunningTask>,    // mCurrentTask
    progressVisible: bool,        // visibility of the progress layout
    button: Button,               // text and click handler of mButton
    stored: Option<bool>,         // the persisted installed flag
    broadcasts: seq<Broadcast>,   // every broadcast sent, oldest first
    executed: seq<RunningTask>,   // every job started, oldest first
    pending: bool)                // the last job started has yet to call the listener

  /**
   * `setInstalled`: commits the flag, so that reading it back gives `installed`,
   * and sends exactly one broadcast saying so; nothing else changes.
   */
  function WithInstalled(s: SwitchState, installed: bool): (r: SwitchState)
    ensures Preferences.IsInstalled(r.stored) == installed
    ensures r.broadcasts == s.broadcasts + [Notice(s.id, installed)]
    ensures r == s.(stored := r.stored, broadcasts := r.broadcasts)
  {
    s.(stored := Some(installed), broadcasts := s.broadcasts + [Notice(s.id, installed)])
  }

  /**
   * `checkInstalled`: the stored flag (false if never written), with one
   * broadcast matching it appended; nothing else changes.
   */
  function Checked(s: SwitchState): (r: (bool, SwitchState))
    ensures r.0 <==> s.stored == Some(true)
    ensures r.1 == s.(broadcasts := s.broadcasts + [Notice(s.id, r.0)])
  {
    var installed := Preferences.IsInstalled(s.stored);
    (installed, s.(broadcasts := s.broadcasts + [Notice(s.id, installed)]))
  }

  /** The button that offers the action opposite to the installed state. */
  function ButtonFor(installed: bool): (b: Button)
    ensures b.Handler() == (if installed then Uninstall else Install)
  {
    if installed then UninstallButton else InstallButton
  }

  /**
   * `onCreate`: no task, progress hidden, one broadcast of the stored state,
   * and the button is Uninstall exactly when the stored flag is true.
   */
  function OnCreate(id: string, stored: Option<bool>): (s: SwitchState)
    ensures s.task.None? && !s.progressVisible
    ensures s.button == UninstallButton <==> stored == Some(true)
    ensures s.broadcasts == [Notice(id, stored == Some(true))]
    ensures s.stored == stored && s.executed == [] && !s.pending && s.id == id
  {
    var blank := SwitchState(id, None, false, InstallButton, stored, [], [], false);
    var (installed, checked) := Checked(blank);
    checked.(button := ButtonFor(installed))
  }

  /**
   * `install` (kind Install) and `uninstall` (kind Uninstall). While a task is
   * in flight the request is ignored. Otherwise the progress is shown and the
   * marker set before the factory is asked for a job; if the factory throws,
   * the request stops there, leaving the marker set and no job to call back;
   * else the job is started and will call back.
   */
  function Request(s: SwitchState, kind: RunningTask, outcome: FactoryOutcome): (r: SwitchState)
    ensures s.task.Some? ==> r == s
    ensures s.task.None? ==>
      && r.task == Some(kind) && r.progressVisible
      && r.executed == s.executed + (if outcome.JobCreated? then [kind] else [])
      && r.pending == (outcome.JobCreated? || s.pending)
      && r.stored == s.stored && r.button == s.button && r.broadcasts == s.broadcasts && r.id == s.id
  {
    if s.task.Some? then s
    else
      var marked := s.(progressVisible := true, task := Some(kind));
      match outcome
      case FactoryThrew => marked
      case JobCreated => marked.(executed := marked.executed + [kind], pending := true)
  }

  /**
   * `onTaskFinished`: hides the progress and clears the marker. A successful
   * install stores true and offers Uninstall; a successful uninstall stores
   * false and offers Install; a failure changes nothing else. On success the
   * source switches on the marker, which throws when it is null: hence the
   * precondition. The job has called back, so none is pending any more.
   */
  function TaskFinished(s: SwitchState, result: bool): (r: SwitchState)
    requires result ==> s.task.Some?
    ensures !r.progressVisible && r.task.None? && !r.pending
    ensures r.executed == s.executed && r.id == s.id
    ensures result && s.task == Some(Install) ==>
      && r.stored == Some(true) && r.button == UninstallButton
      && r.broadcasts == s.broadcasts + [Notice(s.id, true)]
    ensures result && s.task == Some(Uninstall) ==>
      && r.stored == Some(false) && r.button == InstallButton
      && r.broadcasts == s.broadcasts + [Notice(s.id, false)]
    ensures !result ==> r.stored == s.stored && r.button == s.button && r.broadcasts == s.broadcasts
  {
    var hidden := s.(progressVisible := false);
    var done :=
      if !result then hidden
      else match s.task.value
        case Install => WithInstalled(hidden, true).(button := UninstallButton)
        case Uninstall => WithInstalled(hidden, false).(button := InstallButton);
    done.(task := None, pending := false)
  }

  /**
   * What the activity shows always agrees with what is stored: the progress is
   * visible exactly while a task is marked, the button offers Uninstall exactly
   * when the stored flag is true, the latest broadcast announces the
   * stored state, and a job yet to call back is the last one started, of the
   * kind the marker names.
   */
  ghost predicate Consistent(s: SwitchState) {
    && (s.progressVisible <==> s.task.Some?)
    && (s.pending ==> s.task.Some? && |s.executed| > 0 && s.executed[|s.executed| - 1] == s.task.value)
    && (s.button == UninstallButton <==> Preferences.IsInstalled(s.stored))
    && |s.broadcasts| > 0
    && s.broadcasts[|s.broadcasts| - 1] == Notice(s.id, Preferences.IsInstalled(s.stored))
  }

  /** Something that happens to the activity after it was created. */
  datatype Event =
    | Requested(kind: RunningTask, outcome: FactoryOutcome)  // install() or uninstall()
    | Finished(result: bool)                                  // the job's completion callback

  /**
   * Requests can always happen; a completion only comes from a started job
   * that has not called back yet, which the marker still names.
   */
  ghost predicate Enabled(s: SwitchState, e: Event) {
    e.Finished? ==> s.pending && s.task.Some?
  }

  function Step(s: SwitchState, e: Event): (r: SwitchState)
    requires Enabled(s, e)
  {
    match e
    case Requested(kind, outcome) => Request(s, kind, outcome)
    case Finished(result) => TaskFinished(s, result)
  }

  /** Every event of `events`, in turn, can happen in the state the ones before it lead to. */
  ghost predicate Admissible(s: SwitchState, events: seq<Event>)
    decreases |events|
  {
    events == [] || (Enabled(s, events[0]) && Admissible(Step(s, events[0]), events[1..]))
  }

  function Run(s: SwitchState, events: seq<Event>): (r: SwitchState)
    requires Admissible(s, events)
    decreases |events|
  {
    if events == [] then s else Run(Step(s, events[0]), events[1..])
  }

  function Finishes(events: seq<Event>): (n: nat)
    decreases |events|
  {
    if events == [] then 0 else (if events[0].Finished? then 1 else 0) + Finishes(events[1..])
  }

  predicate OnlyRequests(events: seq<Event>) {
    forall i :: 0 <= i < |events| ==> events[i].Requested?
  }

  /** A freshly created activity is consistent. */
  lemma OnCreateIsConsistent(id: string, stored: Option<bool>)
    ensures Consistent(OnCreate(id, stored))
  {
  }

  /** Each operation keeps the activity consistent. */
  lemma StepKeepsConsistent(s: SwitchState, e: Event)
    requires Consistent(s) && Enabled(s, e)
    ensures Consistent(Step(s, e))
  {
  }

  /** Any admissible sequence of requests and completions keeps the activity consistent. */
  lemma {:induction false} RunKeepsConsistent(s: SwitchState, events: seq<Event>)
    requires Consistent(s) && Admissible(s, events)
    ensures Consistent(Run(s, events))
    decreases |events|
  {
    if events != [] {
      StepKeepsConsistent(s, events[0]);
      RunKeepsConsistent(Step(s, events[0]), events[1..]);
    }
  }

  /**
   * Every job started calls back exactly once and every completion comes from
   * a started job: over any admissible run from a consistent state, the jobs
   * started balance the completions plus the job still pending at the end,
   * less the one pending at the start. As `pending` is a single flag, at most
   * one job is ever in flight.
   */
  lemma {:induction false} AtMostOneJobInFlight(s: SwitchState, events: seq<Event>)
    requires Consistent(s) && Admissible(s, events)
    ensures var r := Run(s, events);
      |r.executed| + (if s.pending then 1 else 0)
        == |s.executed| + Finishes(events) + (if r.pending then 1 else 0)
    decreases |events|
  {
    if events != [] {
      StepKeepsConsistent(s, events[0]);
      AtMostOneJobInFlight(Step(s, events[0]), events[1..]);
    }
  }

  /** While a task is marked, any sequence of install and uninstall requests changes nothing. */
  lemma {:induction false} BusyIgnoresRequests(s: SwitchState, events: seq<Event>)
    requires s.task.Some? && OnlyRequests(events)
    ensures Admissible(s, events) && Run(s, events) == s
    decreases |events|
  {
    if events != [] {
      BusyIgnoresRequests(s, events[1..]);
    }
  }

  /**
   * A task that is marked with no job to call back is stuck: only requests can
   * follow, and they change nothing.
   */
  lemma {:induction false} MarkedWithoutJobIsStuck(s: SwitchState, events: seq<Event>)
    requires s.task.Some? && !s.pending && Admissible(s, events)
    ensures OnlyRequests(events) && Run(s, events) == s
    decreases |events|
  {
    if events != [] {
      MarkedWithoutJobIsStuck(s, events[1..]);
    }
  }

  /**
   * A factory that throws leaves the marker set and the progress shown with no
   * job started, so no completion can ever clear it: whatever happens later,
   * only install and uninstall requests, all of them ignored.
   */
  lemma FactoryFailureBlocksRequests(s: SwitchState, kind: RunningTask, later: seq<Event>)
    requires Consistent(s) && s.task.None?
    requires Admissible(Request(s, kind, FactoryThrew), later)
    ensures var t := Request(s, kind, FactoryThrew);
      && t.task == Some(kind) && t.progressVisible && t.executed == s.executed && !t.pending
      && OnlyRequests(later) && Run(t, later) == t
  {
    MarkedWithoutJobIsStuck(Request(s, kind, FactoryThrew), later);
  }

  /** Only a successful completion of a started job changes the stored flag. */
  lemma {:induction false} StoredChangesOnlyOnCompletion(s: SwitchState, events: seq<Event>)
    requires Admissible(s, events)
    ensures Run(s, events).stored != s.stored ==>
      exists i :: 0 <= i < |events| && events[i] == Finished(true)
    decreases |events|
  {
    if events != [] {
      var t := Step(s, events[0]);
      StoredChangesOnlyOnCompletion(t, events[1..]);
      if Run(s, events).stored != s.stored && events[0] != Finished(true) {
        assert t.stored == s.stored;
        var i :| 0 <= i < |events[1..]| && events[1..][i] == Finished(true);
        assert events[i + 1] == Finished(true);
      }
    }
  }

  /**
   * An activity that was not installed becomes installed only through an
   * install job: once the flag reads true, an Install job has been started.
   */
  lemma {:induction false} InstalledOnlyByInstallJob(s: SwitchState, events: seq<Event>)
    requires Consistent(s) && Admissible(s, events)
    requires Preferences.IsInstalled(s.stored) ==> Install in s.executed
    ensures Preferences.IsInstalled(Run(s, events).stored) ==> Install in Run(s, events).executed
    decreases |events|
  {
    if events != [] {
      var t := Step(s, events[0]);
      StepKeepsConsistent(s, events[0]);
      if Preferences.IsInstalled(t.stored) && !Preferences.IsInstalled(s.stored) {
        assert s.executed[|s.executed| - 1] == Install;
      }
      if Install in s.executed {
        var j :| 0 <= j < |s.executed| && s.executed[j] == Install;
        assert t.executed[j] == Install;
      }
      InstalledOnlyByInstallJob(t, events[1..]);
    }
  }

  /**
   * A fresh activity with nothing stored cannot become installed unless an
   * install job was started, whatever the sequence of events.
   */
  lemma FreshInstallNeedsJob(id: string, events: seq<Event>)
    requires Admissible(OnCreate(id, None), events)
    ensures Preferences.IsInstalled(Run(OnCreate(id, None), events).stored) ==>
      Install in Run(OnCreate(id, None), events).executed
  {
    OnCreateIsConsistent(id, None);
    InstalledOnlyByInstallJob(OnCreate(id, None), events);
  }

  /**
   * From a fresh activity with nothing stored: install, the job succeeds, and a
   * later check reports installed. REMOVED was broadcast at creation, then
   * ADDED by the completion and ADDED again by the check.
   */
  lemma InstallScenario(id: string)
    ensures var s0 := OnCreate(id, None);
      var s1 := Request(s0, Install, JobCreated);
      var s2 := TaskFinished(s1, true);
      var (installed, s3) := Checked(s2);
      && installed && s3.task.None? && s3.button == UninstallButton && s3.executed == [Install]
      && s3.broadcasts == [Notice(id, false), Notice(id, true), Notice(id, true)]
  {
  }

  /** The activity, whose methods change its fields as the source's do. */
  class Main {
    const id: string
    var task: Option<RunningTask>
    var progressVisible: bool
    var button: Button
    var stored: Option<bool>
    var broadcasts: seq<Broadcast>
    var executed: seq<RunningTask>
    var pending: bool

    function State(): (s: SwitchState)
      reads this
    {
      SwitchState(id, task, progressVisible, button, stored, broadcasts, executed, pending)
    }

    /** `onCreate`, with `stored` the flag found in the preference store. */
    constructor (id: string, stored: Option<bool>)
      ensures State() == OnCreate(id, stored)
      ensures Consistent(State())
    {
      this.id := id;
      task := None;
      progressVisible := false;
      button := InstallButton;
      this.stored := stored;
      broadcasts := [];
      executed := [];
      pending := false;
      new;
      var installed := CheckInstalled();
      if installed {
        PrepareUninstallButton();
      } else {
        PrepareInstallButton();
      }
    }

    method PrepareInstallButton()
      modifies this`button
      ensures button == InstallButton && button.Label() == "Install"
    {
      button := InstallButton;
    }

    method PrepareUninstallButton()
      modifies this`button
      ensures button == UninstallButton && button.Label() == "Uninstall"
    {
      button := UninstallButton;
    }

    method BroadcastInstallationStateChange(installed: bool)
      modifies this`broadcasts
      ensures broadcasts == old(broadcasts) + [Notice(id, installed)]
    {
      broadcasts := broadcasts + [Notice(id, installed)];
    }

    method SetInstalled(installed: bool)
      modifies this`stored, this`broadcasts
      ensures State() == WithInstalled(old(State()), installed)
    {
      stored := Some(installed);
      BroadcastInstallationStateChange(installed);
    }

    method CheckInstalled() returns (installed: bool)
      modifies this`broadcasts
      ensures (installed, State()) == Checked(old(State()))
    {
      installed := Preferences.IsInstalled(stored);
      BroadcastInstallationStateChange(installed);
    }

    /** `install`, with `outcome` what `getInterpreterInstaller` did. */
    method Install(outcome: FactoryOutcome)
      requires Consistent(State())
      modifies this`progressVisible, this`task, this`executed, this`pending
      ensures State() == Request(old(State()), RunningTask.Install, outcome)
      ensures Consistent(State())
    {
      StepKeepsConsistent(State(), Requested(RunningTask.Install, outcome));
      if task.Some? {
        return;
      }
      progressVisible := true;
      task := Some(RunningTask.Install);
      if outcome.FactoryThrew? {
        return;
      }
      executed := executed + [RunningTask.Install];
      pending := true;
    }

    /** `uninstall`, with `outcome` what `getInterpreterUninstaller` did. */
    method Uninstall(outcome: FactoryOutcome)
      requires Consistent(State())
      modifies this`progressVisible, this`task, this`executed, this`pending
      ensures State() == Request(old(State()), RunningTask.Uninstall, outcome)
      ensures Consistent(State())
    {
      StepKeepsConsistent(State(), Requested(RunningTask.Uninstall, outcome));
      if task.Some? {
        return;
      }
      progressVisible := true;
      task := Some(RunningTask.Uninstall);
      if outcome.FactoryThrew? {
        return;
      }
      executed := executed + [RunningTask.Uninstall];
      pending := true;
    }

    /** A click on the main button: the handler the button was last prepared with. */
    method Click(outcome: FactoryOutcome)
      requires Consistent(State())
      modifies this`progressVisible, this`task, this`executed, this`pending
      ensures State() == Request(old(State()), old(button).Handler(), outcome)
      ensures Consistent(State())
    {
      if button == InstallButton {
        Install(outcome);
      } else {
        Uninstall(outcome);
      }
    }

    /**
     * `mTaskListener.onTaskFinished`, called once by the job that was started;
     * `message` is only logged.
     */
    method OnTaskFinished(result: bool, message: string)
      requires Consistent(State()) && pending
      modifies this
      ensures State() == TaskFinished(old(State()), result)
      ensures Consistent(State())
    {
      StepKeepsConsistent(State(), Finished(result));
      progressVisible := false;
      if result {
        match task.value {
          case Install =>
            SetInstalled(true);
            PrepareUninstallButton();
          case Uninstall =>
            SetInstalled(false);
            PrepareInstallButton();
        }
      }
      task := None;
      pending := false;
    }
  }
}
