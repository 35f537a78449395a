/**
 * The run flags shared by the command loop and the workflow thread:
 * `RUN_LOCK`, `CONFIRMED`, `PROCESS_CANCELLED`, `STOP_CURRENT_TASK` and
 * `CURRENT_MODE`, together with a count of the workflow threads started.
 * Every handler that touches them is a method of `RunController`; the other
 * thread's changes reach the workflow's wait loop as a sequence of events.
 */
module RunControl {
  import opened Wrappers
  import opened Text
  import opened Access

  const TestMode := "test"
  const ProductionMode := "production"
  const ProcessCommand := "/process"

  /** A handler that may run while the workflow thread waits for a mode. */
  datatype Event = SelectTest | SelectProduction | CancelButton | MiniAppCancel | NoChange

  /** How the wait at the top of `main_workflow` ends. */
  datatype WaitEnd = Proceed | Cancelled | StillWaiting

  class RunController {
    var runLock: bool
    var confirmed: bool
    var processCancelled: bool
    var stopCurrentTask: bool
    var currentMode: Option<string>
    var started: nat

    /** A confirmed run always has a mode. */
    ghost predicate Valid()
      reads this
    {
      confirmed ==> currentMode.Some?
    }

    /** The flags at start-up: idle, nothing chosen, no workflow started. */
    constructor ()
      ensures Valid() && Idle() && started == 0
    {
      runLock, confirmed, processCancelled, stopCurrentTask := false, false, false, false;
      currentMode := None;
      started := 0;
    }

    /** The state every handler leaves behind it once a workflow has finished. */
    predicate Idle()
      reads this
    {
      !runLock && !confirmed && !processCancelled && !stopCurrentTask && currentMode.None?
    }

    /**
     * The mini app's `start_process`: a user without access changes nothing;
     * so does a start while the lock is held. Otherwise the mode (by default
     * "test") is taken, the run is confirmed, not cancelled and locked, and a
     * workflow is started.
     */
    method StartFromMiniApp(access: AccessControl, user: int, mode: Option<string>) returns (accepted: bool)
      requires Valid()
      modifies this
      ensures Valid()
      ensures accepted <==> access.IsAllowed(user) && !old(runLock)
      ensures !accepted ==> unchanged(this)
      ensures accepted ==>
        && currentMode == Some(if mode.Some? then mode.value else TestMode)
        && confirmed && !processCancelled && runLock
        && stopCurrentTask == old(stopCurrentTask) && started == old(started) + 1
    {
      if !access.IsAllowed(user) || runLock {
        return false;
      }
      currentMode := Some(if mode.Some? then mode.value else TestMode);
      confirmed := true;
      processCancelled := false;
      runLock := true;
      started := started + 1;
      accepted := true;
    }

    /** The mini app's `cancel_process`: for a user with access, only the cancel flag is raised. */
    method CancelFromMiniApp(access: AccessControl, user: int)
      requires Valid()
      modifies this
      ensures Valid()
      ensures access.IsAllowed(user) ==> processCancelled
      ensures !access.IsAllowed(user) ==> processCancelled == old(processCancelled)
      ensures runLock == old(runLock) && confirmed == old(confirmed) && currentMode == old(currentMode)
      ensures stopCurrentTask == old(stopCurrentTask) && started == old(started)
    {
      if access.IsAllowed(user) {
        processCancelled := true;
      }
    }

    /**
     * The `/process` command of a user with access, once its bot mention is
     * removed: while the lock is held the agent is busy and nothing changes;
     * otherwise the lock is taken and the flags are cleared so that a mode can
     * be chosen. No workflow is started yet.
     */
    method Process(access: AccessControl, user: int, text: string) returns (accepted: bool)
      requires Valid()
      modifies this
      ensures Valid()
      ensures accepted <==> access.IsAllowed(user) && StripMention(text) == ProcessCommand && !old(runLock)
      ensures !accepted ==> unchanged(this)
      ensures accepted ==>
        && runLock && !confirmed && !processCancelled && currentMode.None?
        && stopCurrentTask == old(stopCurrentTask) && started == old(started)
    {
      if !access.IsAllowed(user) || StripMention(text) != ProcessCommand || runLock {
        return false;
      }
      runLock := true;
      confirmed := false;
      processCancelled := false;
      currentMode := None;
      accepted := true;
    }

    /**
     * The `select_test_mode` and `select_production_mode` buttons: the mode
     * is taken, the run confirmed and not cancelled, and a workflow started,
     * whoever pressed the button and whether or not the lock is held.
     */
    method SelectMode(production: bool)
      requires Valid()
      modifies this
      ensures Valid()
      ensures currentMode == Some(if production then ProductionMode else TestMode)
      ensures confirmed && !processCancelled && started == old(started) + 1
      ensures runLock == old(runLock) && stopCurrentTask == old(stopCurrentTask)
    {
      currentMode := Some(if production then ProductionMode else TestMode);
      confirmed := true;
      processCancelled := false;
      started := started + 1;
    }

    /** The `cancel_process` button: cancelled, and the lock released. */
    method CancelButton()
      requires Valid()
      modifies this
      ensures Valid()
      ensures processCancelled && !runLock
      ensures confirmed == old(confirmed) && currentMode == old(currentMode)
      ensures stopCurrentTask == old(stopCurrentTask) && started == old(started)
    {
      processCancelled := true;
      runLock := false;
    }

    /** One event of the other thread, applied with full access. */
    method Apply(e: Event)
      requires Valid()
      modifies this
      ensures Valid()
      ensures e.SelectTest? || e.SelectProduction? ==>
        && currentMode == Some(if e.SelectProduction? then ProductionMode else TestMode)
        && confirmed && !processCancelled && started == old(started) + 1
        && runLock == old(runLock) && stopCurrentTask == old(stopCurrentTask)
      ensures e.CancelButton? ==>
        && processCancelled && !runLock
        && confirmed == old(confirmed) && currentMode == old(currentMode)
        && stopCurrentTask == old(stopCurrentTask) && started == old(started)
      ensures e.MiniAppCancel? ==>
        && processCancelled && runLock == old(runLock) && confirmed == old(confirmed)
        && currentMode == old(currentMode) && stopCurrentTask == old(stopCurrentTask) && started == old(started)
      ensures e.NoChange? ==> unchanged(this)
    {
      match e
      case SelectTest => SelectMode(false);
      case SelectProduction => SelectMode(true);
      case CancelButton => CancelButton();
      case MiniAppCancel => processCancelled := true;
      case NoChange =>
    }

    /**
     * The wait at the top of `main_workflow`: it polls until the run is
     * confirmed, cancelled or unlocked, the other thread changing the flags
     * between polls; a cancelled run ends there. When the events run out
     * while the wait still holds, the model stops with `StillWaiting`.
     */
    method AwaitStart(events: seq<Event>) returns (end: WaitEnd)
      requires Valid()
      modifies this
      ensures Valid()
      ensures end == Proceed ==> !processCancelled && (confirmed || !runLock)
      ensures end == Proceed && runLock ==> currentMode.Some?
      ensures end == Cancelled <==> processCancelled
      ensures end == StillWaiting ==> !confirmed && !processCancelled && runLock && unchanged(this)
    {
      var i := 0;
      while !confirmed && !processCancelled && runLock
        invariant 0 <= i <= |events|
        invariant Valid()
        invariant !confirmed && !processCancelled && runLock ==> unchanged(this)
        decreases |events| - i
      {
        if i == |events| {
          return StillWaiting;
        }
        Apply(events[i]);
        i := i + 1;
      }
      end := if processCancelled then Cancelled else Proceed;
    }

    /** The `finally` of `main_workflow`: every flag is cleared and the mode forgotten. */
    method Finish()
      requires Valid()
      modifies this
      ensures Valid() && Idle() && started == old(started)
    {
      runLock, confirmed, processCancelled, stopCurrentTask := false, false, false, false;
      currentMode := None;
    }
  }

  /** A second start from the mini app while the first run holds the lock is refused. */
  method StartTwice(rc: RunController, access: AccessControl, user: int, first: Option<string>, second: Option<string>)
    returns (a1: bool, a2: bool)
    requires rc.Valid() && !rc.runLock && access.IsAllowed(user)
    modifies rc
    ensures a1 && !a2 && rc.started == old(rc.started) + 1
  {
    a1 := rc.StartFromMiniApp(access, user, first);
    a2 := rc.StartFromMiniApp(access, user, second);
  }

  /** `/process` followed by a mode button leaves a locked, confirmed run in that mode. */
  method ProcessThenSelect(rc: RunController, access: AccessControl, user: int, production: bool)
    returns (accepted: bool)
    requires rc.Valid() && !rc.runLock && access.IsAllowed(user)
    modifies rc
    ensures accepted && rc.runLock && rc.confirmed && !rc.processCancelled
    ensures rc.currentMode == Some(if production then ProductionMode else TestMode)
  {
    accepted := rc.Process(access, user, ProcessCommand);
    rc.SelectMode(production);
  }
}
