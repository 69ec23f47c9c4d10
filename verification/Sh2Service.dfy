/**
 The life of the SH-2 service as a state machine: one external task that starts and stops it,
 and the service, recovery and callback tasks it leads to, interleaved between their delays,
 yields and queue calls.  Nothing but the flags keeps there from being several tasks of a kind;
 what such tasks would do is not described, as the state is shown never to be reached.
 */
module Sh2Service {

  const ATTEMPTS: nat := 100
  const QUEUE_LENGTH: nat := 64

  /** Where the external task stands: between calls, or in a delay of sh2service_start or _stop. */
  datatype Controller =
    | Outside
    | StartingCallback
    | Opening
    | Opened
    | ServiceTaskMade(ok: bool)
    | CleaningUp
    | AbandoningCallback
    | StoppingTasks
    | StoppingCallback

  datatype Service = Made | Looping | Leaving

  datatype Recovery = Requested | Attempting(i: nat) | Pausing(i: nat) | Recreated(ok: bool)

  datatype Callback = Waking | Receiving

  /** The live tasks of a kind, from creation to deletion. */
  datatype Live<T> = Nobody | One(task: T) | Several

  function Joined<T>(l: Live<T>, t: T): Live<T> {
    if l.Nobody? then One(t) else Several
  }

  datatype Queue = NoQueue | Queue(events: seq<int>)

  datatype State = State(
    // s_task_handle, s_running, s_recovery_task_handle, s_recovering, s_stop_requested
    taskHandle: bool, running: bool, recoveryHandle: bool, recovering: bool, stopRequested: bool,
    // s_callback_task_handle, s_callback_task_running, s_callback_task_stop_requested, s_event_queue
    callbackHandle: bool, callbackRunning: bool, callbackStop: bool, queue: Queue,
    controller: Controller, service: Live<Service>, recovery: Live<Recovery>, callback: Live<Callback>,
    restarted: bool,
    // history: events accepted by and taken from the present queue, and whether a new service
    // failed before the recovery that made it was over
    accepted: seq<int>, taken: seq<int>, lost: bool)

  function Initial(): State {
    State(false, false, false, false, false, false, false, false, NoQueue,
          Outside, Nobody, Nobody, Nobody, false, [], [], false)
  }

  // ---------- the steps ----------

  /** One step of one task; the flags tell how the calls into the system went. */
  datatype Step =
    | Start(queueMade: bool, taskMade: bool)
    | StartOpening
    | StartOpened(ok: bool)
    | StartMakeTask(made: bool)
    | StartMadeTask
    | StartCleanedUp
    | StartAbandoned
    | Stop
    | StopTasksGone
    | StopCallbackGone
    | ServiceRuns
    | ServiceFails(recoveryMade: bool)
    | ServiceLeaves
    | ServiceGone
    | RecoveryRuns
    | RecoveryOpened(ok: bool, made: bool)
    | RecoveryPaused
    | RecoveryOver
    | CallbackRuns
    | CallbackReceives
    | CallbackLeaves
    | SensorEvent(e: int)

  predicate NothingFlagged(s: State) {
    !s.taskHandle && !s.running && !s.recoveryHandle && !s.recovering && !s.callbackHandle && !s.callbackRunning
  }

  predicate TasksUnflagged(s: State) {
    !s.taskHandle && !s.running && !s.recoveryHandle && !s.recovering
  }

  /** sh2service_create_callback_task, up to its delay. */
  function MakeCallbackTask(s: State, queueMade: bool, taskMade: bool): State {
    if s.queue.NoQueue? && !queueMade then s.(controller := Outside)
    else
      var q := s.(queue := Queue([]), accepted := [], taken := []);
      if s.callbackHandle || s.callbackRunning then q.(controller := Opening)
      else if taskMade then
        q.(callbackStop := false, callbackHandle := true, callback := Joined(s.callback, Waking),
           controller := StartingCallback)
      else q.(callbackStop := false, queue := NoQueue, controller := Outside)
  }

  /** The end of sh2service_stop_callback_task. */
  function QueueDeleted(s: State): State {
    s.(queue := NoQueue, callbackStop := false, controller := Outside)
  }

  function RequestRecovery(s: State, made: bool): State {
    if s.stopRequested || s.recovering || s.recoveryHandle then
      s.(lost := s.lost || !s.stopRequested)
    else if made then
      s.(recovering := true, recoveryHandle := true, recovery := Joined(s.recovery, Requested))
    else
      s.(recovering := true, restarted := true)
  }

  /** The head of the recovery loop for attempt i, and what follows the loop. */
  function RecoveryLoop(s: State, i: nat): State {
    if i < ATTEMPTS && !s.stopRequested then s.(recovery := One(Attempting(i)))
    else s.(recovering := false, recoveryHandle := false, recovery := Nobody, restarted := !s.stopRequested)
  }

  /** The controller is in a part of start that talks to the device. */
  predicate StarterDrives(c: Controller) {
    c.Opening? || c.Opened? || c == ServiceTaskMade(false) || c.CleaningUp?
  }

  predicate ServiceDrives(l: Live<Service>) {
    !l.Nobody?
  }

  predicate RecoveryDrives(l: Live<Recovery>) {
    l.Several? || (l.One? && !l.task.Recreated?)
  }

  predicate SomebodyDrives(s: State) {
    StarterDrives(s.controller) || ServiceDrives(s.service) || RecoveryDrives(s.recovery)
  }

  predicate Enabled(s: State, step: Step) {
    !s.restarted &&
    match step
    case Start(_, _) => s.controller.Outside?
    case StartOpening => s.controller.StartingCallback?
    case StartOpened(_) => s.controller.Opening?
    case StartMakeTask(_) => s.controller.Opened?
    case StartMadeTask => s.controller.ServiceTaskMade?
    case StartCleanedUp => s.controller.CleaningUp?
    case StartAbandoned => s.controller.AbandoningCallback? && !s.callbackHandle && !s.callbackRunning
    case Stop => s.controller.Outside?
    case StopTasksGone => s.controller.StoppingTasks? && TasksUnflagged(s)
    case StopCallbackGone => s.controller.StoppingCallback? && !s.callbackHandle && !s.callbackRunning
    case ServiceRuns => s.service.One? && s.service.task.Made?
    case ServiceFails(_) => s.service.One? && s.service.task.Looping?
    case ServiceLeaves => s.service.One? && s.service.task.Looping? && s.stopRequested
    case ServiceGone => s.service.One? && s.service.task.Leaving?
    case RecoveryRuns => s.recovery.One? && s.recovery.task.Requested?
    case RecoveryOpened(_, _) => s.recovery.One? && s.recovery.task.Attempting?
    case RecoveryPaused => s.recovery.One? && s.recovery.task.Pausing?
    case RecoveryOver => s.recovery.One? && s.recovery.task.Recreated?
    case CallbackRuns => s.callback.One? && s.callback.task.Waking?
    case CallbackReceives =>
      s.callback.One? && s.callback.task.Receiving? && !s.callbackStop && s.queue.Queue? && s.queue.events != []
    case CallbackLeaves =>
      s.callback.One? && s.callback.task.Receiving? && (s.callbackStop || s.queue.NoQueue?)
    case SensorEvent(_) => SomebodyDrives(s)
  }

  function ControllerStep(s: State, step: Step): State
    requires Enabled(s, step)
  {
    match step
    case Start(queueMade, taskMade) =>
      if !NothingFlagged(s) then s
      else MakeCallbackTask(s.(stopRequested := false, recovering := false, lost := false), queueMade, taskMade)
    case StartOpening => s.(controller := Opening)
    case StartOpened(ok) => s.(controller := if ok then Opened else CleaningUp)
    case StartMakeTask(made) =>
      if made then s.(taskHandle := true, service := Joined(s.service, Made), controller := ServiceTaskMade(true))
      else s.(controller := ServiceTaskMade(false))
    case StartMadeTask =>
      if s.controller.ok then s.(controller := Outside) else s.(taskHandle := false, controller := CleaningUp)
    case StartCleanedUp => s.(callbackStop := true, controller := AbandoningCallback)
    case StartAbandoned => QueueDeleted(s)
    case Stop => if NothingFlagged(s) then s else s.(stopRequested := true, controller := StoppingTasks)
    case StopTasksGone => s.(callbackStop := true, controller := StoppingCallback)
    case StopCallbackGone => QueueDeleted(s)
    case _ => s
  }

  function ServiceStep(s: State, step: Step): State
    requires Enabled(s, step)
  {
    match step
    case ServiceRuns => s.(running := true, service := One(Looping))
    case ServiceFails(made) =>
      RequestRecovery(s.(running := false, taskHandle := false, service := Nobody), made)
    case ServiceLeaves => s.(recovering := false, service := One(Leaving))
    case ServiceGone =>
      s.(stopRequested := false, running := false, taskHandle := false, service := Nobody)
    case _ => s
  }

  function RecoveryStep(s: State, step: Step): State
    requires Enabled(s, step)
  {
    match step
    case RecoveryRuns => RecoveryLoop(s, 0)
    case RecoveryOpened(ok, made) =>
      if !ok then s.(recovery := One(Pausing(s.recovery.task.i)))
      else if made then
        s.(taskHandle := true, service := Joined(s.service, Made), recovery := One(Recreated(true)))
      else s.(recovery := One(Recreated(false)))
    case RecoveryPaused => RecoveryLoop(s, s.recovery.task.i + 1)
    case RecoveryOver =>
      if s.recovery.task.ok then
        s.(recovering := false, recoveryHandle := false, recovery := Nobody)
      else s.(taskHandle := false, restarted := true)
    case _ => s
  }

  function QueueStep(s: State, step: Step): State
    requires Enabled(s, step)
  {
    match step
    case CallbackRuns => s.(callbackRunning := true, callback := One(Receiving))
    case CallbackReceives =>
      s.(queue := Queue(s.queue.events[1..]), taken := s.taken + [s.queue.events[0]])
    case CallbackLeaves =>
      s.(callbackRunning := false, callbackHandle := false, callback := Nobody)
    case SensorEvent(e) =>
      if s.queue.NoQueue? || |s.queue.events| >= QUEUE_LENGTH then s
      else s.(queue := Queue(s.queue.events + [e]), accepted := s.accepted + [e])
    case _ => s
  }

  predicate OfRecovery(step: Step) {
    step.RecoveryRuns? || step.RecoveryOpened? || step.RecoveryPaused? || step.RecoveryOver?
  }

  predicate OfService(step: Step) {
    step.ServiceRuns? || step.ServiceFails? || step.ServiceLeaves? || step.ServiceGone?
  }

  predicate OfQueue(step: Step) {
    step.CallbackRuns? || step.CallbackReceives? || step.CallbackLeaves? || step.SensorEvent?
  }

  /** A step that is not enabled does nothing, so any sequence of steps is a schedule. */
  function Apply(s: State, step: Step): State {
    if !Enabled(s, step) then s
    else if OfService(step) then ServiceStep(s, step)
    else if OfRecovery(step) then RecoveryStep(s, step)
    else if OfQueue(step) then QueueStep(s, step)
    else ControllerStep(s, step)
  }

  function After(s: State, schedule: seq<Step>): State {
    if schedule == [] then s else Apply(After(s, schedule[..|schedule| - 1]), schedule[|schedule| - 1])
  }

  // ---------- what every step keeps ----------

  /** Handles and flags tell which tasks are live, and there is at most one of each kind. */
  predicate FlagsTell(s: State) {
    && !s.service.Several? && !s.recovery.Several? && !s.callback.Several?
    && s.taskHandle == s.service.One?
    && s.running == (s.service.One? && !s.service.task.Made?)
    && s.recoveryHandle == s.recovery.One?
    && (s.recovering ==> s.recovery.One? || s.restarted)
    && (s.recovery.One? && !s.recovering ==> s.recovery.task == Recreated(true))
    && s.callbackHandle == s.callback.One?
    && s.callbackRunning == (s.callback.One? && s.callback.task.Receiving?)
  }

  predicate StartInProgress(c: Controller) {
    c.StartingCallback? || c.Opening? || c.Opened? || c == ServiceTaskMade(false) || c.CleaningUp?
  }

  /** The service and a recovery are live together only while the recovery waits for the service it has made. */
  predicate TasksApart(s: State) {
    && (s.service.One? && s.recovery.One? ==> s.recovery.task == Recreated(true))
    && (StartInProgress(s.controller) || s.controller.AbandoningCallback? || s.controller.StoppingCallback? ==>
          s.service.Nobody? && s.recovery.Nobody?)
    && (s.recovery.One? && s.recovery.task.Attempting? ==> s.recovery.task.i < ATTEMPTS)
    && (s.recovery.One? && s.recovery.task.Pausing? ==> s.recovery.task.i < ATTEMPTS)
    && (s.service.One? && s.service.task.Leaving? ==> s.controller.StoppingTasks?)
    && (s.stopRequested && (s.service.One? || s.recovery.One?) ==> s.controller.StoppingTasks?)
    && (StartInProgress(s.controller) ==> !s.stopRequested)
    && (s.controller.StoppingTasks? && (s.service.One? || (s.recovery.One? && s.recovery.task != Recreated(true))) ==>
          s.stopRequested)
  }

  /** The queue is there whenever a task could use it, and holds what was accepted and not yet taken. */
  predicate QueueThere(s: State) {
    && (s.service.One? || s.recovery.One? || StartInProgress(s.controller) ==> s.callback.One?)
    && (s.controller.ServiceTaskMade? || s.controller.StoppingTasks? ==> s.callback.One?)
    && (s.callback.One? || s.callbackStop ==> s.queue.Queue?)
    && (s.callbackStop == (s.controller.AbandoningCallback? || s.controller.StoppingCallback?))
    && (s.controller.Outside? && s.callback.Nobody? ==> s.queue.NoQueue?)
    && (s.queue.Queue? ==> s.accepted == s.taken + s.queue.events && |s.queue.events| <= QUEUE_LENGTH)
  }

  /** A session with neither service nor recovery has lost its service early. */
  predicate Survives(s: State) {
    && (s.recovery == One(Recreated(true)) && s.service.Nobody? ==> s.lost || s.controller.StoppingTasks?)
    && ((s.controller.Outside? || s.controller == ServiceTaskMade(true)) && s.callback.One? && !s.restarted ==>
          s.service.One? || s.recovery.One? || s.lost)
    && (s.lost ==> s.service.Nobody? && (s.recovery.Nobody? || s.recovery == One(Recreated(true))))
    && (StartInProgress(s.controller) ==> !s.lost)
  }

  predicate Inv(s: State) {
    FlagsTell(s) && TasksApart(s) && QueueThere(s) && Survives(s)
  }

  lemma ControllerKeeps(s: State, step: Step)
    requires Inv(s) && Enabled(s, step) && !OfService(step) && !OfRecovery(step) && !OfQueue(step)
    ensures Inv(ControllerStep(s, step))
  {
    match step
    case Start(_, _) => StartKeeps(s, step);
    case Stop => StopKeeps(s, step);
    case StopTasksGone => StopKeeps(s, step);
    case StopCallbackGone => StopKeeps(s, step);
    case _ => StartingKeeps(s, step);
  }

  lemma StartKeeps(s: State, step: Step)
    requires Inv(s) && Enabled(s, step) && step.Start?
    ensures Inv(ControllerStep(s, step))
  {
  }

  lemma StopKeeps(s: State, step: Step)
    requires Inv(s) && Enabled(s, step) && (step.Stop? || step.StopTasksGone? || step.StopCallbackGone?)
    ensures Inv(ControllerStep(s, step))
  {
    hide MakeCallbackTask;
  }

  lemma StartingKeeps(s: State, step: Step)
    requires Inv(s) && Enabled(s, step) && !OfService(step) && !OfRecovery(step) && !OfQueue(step)
    requires !step.Start? && !step.Stop? && !step.StopTasksGone? && !step.StopCallbackGone?
    ensures Inv(ControllerStep(s, step))
  {
    hide MakeCallbackTask, NothingFlagged, TasksUnflagged;
  }

  lemma ServiceKeeps(s: State, step: Step)
    requires Inv(s) && Enabled(s, step) && OfService(step)
    ensures Inv(ServiceStep(s, step))
  {
  }

  lemma RecoveryKeeps(s: State, step: Step)
    requires Inv(s) && Enabled(s, step) && OfRecovery(step)
    ensures Inv(RecoveryStep(s, step))
  {
    match step
    case RecoveryRuns => RecoveryLoopKeeps(s, 0);
    case RecoveryPaused => RecoveryLoopKeeps(s, s.recovery.task.i + 1);
    case RecoveryOpened(_, _) => RecoveryOpenedKeeps(s, step);
    case RecoveryOver => RecoveryOverKeeps(s, step);
  }

  lemma RecoveryLoopKeeps(s: State, i: nat)
    requires Inv(s) && !s.restarted && s.recovery.One? && (s.recovery.task.Requested? || s.recovery.task.Pausing?)
    ensures Inv(RecoveryLoop(s, i))
  {
  }

  lemma RecoveryOpenedKeeps(s: State, step: Step)
    requires Inv(s) && Enabled(s, step) && step.RecoveryOpened?
    ensures Inv(RecoveryStep(s, step))
  {
    hide RecoveryLoop;
  }

  lemma RecoveryOverKeeps(s: State, step: Step)
    requires Inv(s) && Enabled(s, step) && step.RecoveryOver?
    ensures Inv(RecoveryStep(s, step))
  {
    hide RecoveryLoop;
  }

  lemma QueueKeeps(s: State, step: Step)
    requires Inv(s) && Enabled(s, step) && OfQueue(step)
    ensures Inv(QueueStep(s, step))
  {
    if s.queue.Queue? {
      var q := s.queue.events;
      if step.CallbackReceives? {
        assert s.taken + q == (s.taken + [q[0]]) + q[1..];
      } else if step.SensorEvent? {
        assert (s.taken + q) + [step.e] == s.taken + (q + [step.e]);
      }
    }
  }

  lemma ApplyKeeps(s: State, step: Step)
    requires Inv(s)
    ensures Inv(Apply(s, step))
  {
    hide Inv, ControllerStep, ServiceStep, RecoveryStep, QueueStep;
    if Enabled(s, step) {
      if OfService(step) {
        ServiceKeeps(s, step);
      } else if OfRecovery(step) {
        RecoveryKeeps(s, step);
      } else if OfQueue(step) {
        QueueKeeps(s, step);
      } else {
        ControllerKeeps(s, step);
      }
    }
  }

  lemma {:induction false} Reachable(schedule: seq<Step>)
    ensures Inv(After(Initial(), schedule))
  {
    hide Apply;
    if schedule != [] {
      var n := |schedule| - 1;
      Reachable(schedule[..n]);
      ApplyKeeps(After(Initial(), schedule[..n]), schedule[n]);
    }
  }

  // ---------- safety ----------

  /**
   In every state of every schedule at most one of starter, service task and recovery task drives
   the device, there is at most one task of each kind, and whoever drives has a queue to send to.
   */
  lemma OneDriver(schedule: seq<Step>)
    ensures var s := After(Initial(), schedule);
      && !s.service.Several? && !s.recovery.Several? && !s.callback.Several?
      && !(StarterDrives(s.controller) && ServiceDrives(s.service))
      && !(StarterDrives(s.controller) && RecoveryDrives(s.recovery))
      && !(ServiceDrives(s.service) && RecoveryDrives(s.recovery))
      && (SomebodyDrives(s) ==> s.queue.Queue?)
  {
    hide After;
    Reachable(schedule);
  }

  /** The step with which a call of sh2service_stop returns. */
  predicate StopReturns(s: State, step: Step) {
    Enabled(s, step) && (step.StopCallbackGone? || (step.Stop? && NothingFlagged(s)))
  }

  /** When stop returns nothing of the service is left. */
  lemma StoppedIsStopped(schedule: seq<Step>, step: Step)
    requires StopReturns(After(Initial(), schedule), step)
    ensures var s := Apply(After(Initial(), schedule), step);
      && s.service.Nobody? && s.recovery.Nobody? && s.callback.Nobody? && s.queue.NoQueue?
      && NothingFlagged(s) && s.controller.Outside?
  {
    hide After;
    Reachable(schedule);
  }

  /**
   Events leave the queue in the order in which they were accepted, none twice and none left out.
   The order is that of the sequence the queue is; what is proved is that no task replaces, skips
   or refills the queue while it is in use, and that it stays within its length.
   */
  lemma EventsInOrder(schedule: seq<Step>)
    ensures var s := After(Initial(), schedule);
      s.queue.Queue? ==> s.accepted == s.taken + s.queue.events && |s.queue.events| <= QUEUE_LENGTH
  {
    hide After;
    Reachable(schedule);
  }

  // ---------- stop comes to an end ----------

  /** How much the tasks that stop waits for may still do. */
  function TasksLeft(s: State): nat {
    (match s.service
     case Nobody => 0
     case One(t) => (match t case Made => 3 case Looping => 2 case Leaving => 1)
     case Several => 0)
    +
    (match s.recovery
     case Nobody => 0
     case One(t) => (match t case Requested => 6 case Attempting(_) => 6 case Pausing(_) => 5 case Recreated(_) => 1)
     case Several => 0)
  }

  predicate OfTasks(step: Step) {
    OfService(step) || OfRecovery(step)
  }

  predicate Waiting(s: State) {
    s.controller.StoppingTasks? && !s.restarted
  }

  /** A step that the service or the recovery can take next. */
  function NextTaskStep(s: State): Step {
    if s.service.One? then
      match s.service.task case Made => ServiceRuns case Looping => ServiceLeaves case Leaving => ServiceGone
    else if s.recovery.One? then
      match s.recovery.task
      case Requested => RecoveryRuns
      case Attempting(_) => RecoveryOpened(false, false)
      case Pausing(_) => RecoveryPaused
      case Recreated(_) => RecoveryOver
    else StopTasksGone
  }

  /** While stop waits for the tasks, one of them can go on, or it need not wait any longer. */
  lemma StopCanGoOn(s: State)
    requires Inv(s) && Waiting(s)
    ensures Enabled(s, NextTaskStep(s))
    ensures OfTasks(NextTaskStep(s)) || Enabled(s, StopTasksGone)
  {
  }

  /**
   Every step of the tasks brings them nearer their end or restarts the system; no other step gives
   them more to do.  Only the service withdraws the request, as it leaves.
   */
  lemma StopAdvances(s: State, step: Step)
    requires Inv(s) && Waiting(s) && Enabled(s, step)
    ensures var t := Apply(s, step);
      if OfTasks(step) then TasksLeft(s) > 0 && t.controller == s.controller && (t.restarted || TasksLeft(t) < TasksLeft(s))
      else TasksLeft(t) == TasksLeft(s) && (step.StopTasksGone? || t.controller == s.controller)
    ensures Apply(s, step).stopRequested <==> s.stopRequested && !step.ServiceGone?
  {
    hide MakeCallbackTask;
  }

  /** After the tasks the callback task is awaited: it runs, sees the request and leaves without taking another event. */
  lemma StopCallbackEnds(s: State)
    requires Inv(s) && s.controller.StoppingCallback? && !s.restarted
    ensures !Enabled(s, CallbackReceives)
    ensures s.callback.Nobody? ==> Enabled(s, StopCallbackGone)
    ensures s.callback == One(Waking) ==> Enabled(s, CallbackRuns) && Apply(s, CallbackRuns).callback == One(Receiving)
    ensures s.callback == One(Receiving) ==> Enabled(s, CallbackLeaves) && Apply(s, CallbackLeaves).callback.Nobody?
  {
  }

  /** The steps the service and the recovery take while stop waits for them. */
  function TaskSteps(s: State, schedule: seq<Step>): nat
    decreases |schedule|
  {
    if schedule == [] || !Waiting(s) then 0
    else
      var n := if Enabled(s, schedule[0]) && OfTasks(schedule[0]) then 1 else 0;
      n + TaskSteps(Apply(s, schedule[0]), schedule[1..])
  }

  /** However the tasks are scheduled, stop waits for no more than six of their steps. */
  lemma {:induction false} StopWaitBounded(s: State, schedule: seq<Step>)
    requires Inv(s)
    ensures TaskSteps(s, schedule) <= TasksLeft(s) <= 6
    decreases |schedule|
  {
    hide Apply, Enabled, TasksLeft, Inv;
    TasksLeftSmall(s);
    if schedule != [] && Waiting(s) {
      var t := Apply(s, schedule[0]);
      ApplyKeeps(s, schedule[0]);
      if Enabled(s, schedule[0]) {
        StopAdvances(s, schedule[0]);
        StopWaitBounded(t, schedule[1..]);
      } else {
        NotEnabled(s, schedule[0]);
        StopWaitBounded(s, schedule[1..]);
      }
    }
  }

  lemma NotEnabled(s: State, step: Step)
    requires !Enabled(s, step)
    ensures Apply(s, step) == s
  {
  }

  lemma TasksLeftSmall(s: State)
    requires Inv(s)
    ensures TasksLeft(s) <= 6
  {
  }

  // ---------- the end of a recovery ----------

  /** How far a recovery has come. */
  function Rank(r: Recovery): nat {
    match r
    case Requested => 0
    case Attempting(i) => 2 * i + 1
    case Pausing(i) => 2 * i + 2
    case Recreated(_) => 2 * ATTEMPTS + 1
  }

  /** A recovery is over because it has made a service, is restarting the system, or is to stop. */
  predicate EndedWell(before: State, after: State)
    requires before.recovery.One?
  {
    after.restarted || before.stopRequested || before.recovery.task == Recreated(true)
  }

  /** Every step of a recovery brings it forward or ends it for a good reason; no other step touches it. */
  lemma RecoveryAdvances(s: State, step: Step)
    requires Inv(s) && s.recovery.One? && Enabled(s, step)
    ensures var t := Apply(s, step);
      if !OfRecovery(step) then t.recovery == s.recovery
      else if t.recovery.Nobody? then EndedWell(s, t)
      else t.recovery.One? && (t.restarted || Rank(t.recovery.task) > Rank(s.recovery.task))
  {
  }

  /** The attempts a recovery makes before it is over. */
  function Attempts(s: State, schedule: seq<Step>): nat
    decreases |schedule|
  {
    if schedule == [] || s.recovery.Nobody? || s.restarted then 0
    else
      var n := if Enabled(s, schedule[0]) && schedule[0].RecoveryOpened? then 1 else 0;
      n + Attempts(Apply(s, schedule[0]), schedule[1..])
  }

  function Tried(r: Recovery): nat {
    match r
    case Requested => 0
    case Attempting(i) => i
    case Pausing(i) => i + 1
    case Recreated(_) => ATTEMPTS
  }

  lemma OneAttempt(s: State, step: Step)
    requires Inv(s) && s.recovery.One? && !s.restarted
    ensures var t := Apply(s, step); var n := if Enabled(s, step) && step.RecoveryOpened? then 1 else 0;
      && Tried(s.recovery.task) + n <= ATTEMPTS
      && (t.recovery.One? && !t.restarted ==> Tried(t.recovery.task) >= Tried(s.recovery.task) + n)
  {
    if Enabled(s, step) {
      RecoveryAdvances(s, step);
    }
  }

  /** However the tasks are scheduled, a recovery makes no more than a hundred attempts. */
  lemma {:induction false} AttemptsBounded(s: State, schedule: seq<Step>)
    requires Inv(s) && s.recovery.One?
    ensures Tried(s.recovery.task) + Attempts(s, schedule) <= ATTEMPTS
    decreases |schedule|
  {
    hide Apply, Enabled, Tried;
    TriedBounded(s);
    if schedule != [] && !s.restarted {
      var t := Apply(s, schedule[0]);
      ApplyKeeps(s, schedule[0]);
      OneAttempt(s, schedule[0]);
      if t.recovery.One? && !t.restarted {
        AttemptsBounded(t, schedule[1..]);
      }
    }
  }

  lemma TriedBounded(s: State)
    requires Inv(s) && s.recovery.One?
    ensures Tried(s.recovery.task) <= ATTEMPTS
  {
  }

  // ---------- what the calls into the system lead to ----------

  /** The last outcome of each kind of call: opening the device, and creating each kind of task. */
  datatype Outcomes = Outcomes(answered: bool, serviceMade: bool, recoveryMade: bool, callbackMade: bool)

  function Noted(o: Outcomes, s: State, step: Step): Outcomes {
    if !Enabled(s, step) then o
    else match step
      case StartOpened(ok) => o.(answered := ok)
      case RecoveryOpened(ok, made) => o.(answered := ok, serviceMade := if ok then made else o.serviceMade)
      case StartMakeTask(made) => o.(serviceMade := made)
      case ServiceFails(made) => if s.stopRequested || s.recovery.One? then o else o.(recoveryMade := made)
      case Start(queueMade, taskMade) => if NothingFlagged(s) then o.(callbackMade := queueMade && taskMade) else o
      case _ => o
  }

  /** The outcomes noted in the course of a schedule from s. */
  function OutcomesAfter(o: Outcomes, s: State, schedule: seq<Step>): Outcomes
    decreases |schedule|
  {
    if schedule == [] then o else OutcomesAfter(Noted(o, s, schedule[0]), Apply(s, schedule[0]), schedule[1..])
  }

  /** Whoever uses the device has had an answer from it, and every live task has been created. */
  predicate Warranted(s: State, o: Outcomes) {
    && (s.service.One? || s.controller.Opened? || (s.recovery.One? && s.recovery.task.Recreated?) ==> o.answered)
    && (s.service.One? ==> o.serviceMade)
    && (s.recovery.One? ==> o.recoveryMade)
    && (s.callback.One? ==> o.callbackMade)
  }

  lemma WarrantedByController(s: State, step: Step, o: Outcomes)
    requires Inv(s) && Warranted(s, o) && Enabled(s, step) && !OfService(step) && !OfRecovery(step) && !OfQueue(step)
    ensures Warranted(ControllerStep(s, step), Noted(o, s, step))
  {
  }

  lemma WarrantedByTasks(s: State, step: Step, o: Outcomes)
    requires Inv(s) && Warranted(s, o) && Enabled(s, step)
    ensures OfService(step) ==> Warranted(ServiceStep(s, step), Noted(o, s, step))
    ensures OfRecovery(step) ==> Warranted(RecoveryStep(s, step), Noted(o, s, step))
    ensures OfQueue(step) ==> Warranted(QueueStep(s, step), Noted(o, s, step))
  {
    if OfService(step) {
    } else if OfRecovery(step) {
    } else if OfQueue(step) {
    }
  }

  lemma WarrantedStep(s: State, step: Step, o: Outcomes)
    requires Inv(s) && Warranted(s, o)
    ensures Warranted(Apply(s, step), Noted(o, s, step))
  {
    hide Inv, Warranted, Enabled, ControllerStep, ServiceStep, RecoveryStep, QueueStep;
    if !Enabled(s, step) {
      NotEnabled(s, step);
    } else if OfService(step) || OfRecovery(step) || OfQueue(step) {
      WarrantedByTasks(s, step, o);
    } else {
      WarrantedByController(s, step, o);
    }
  }

  lemma {:induction false} AfterFront(s: State, schedule: seq<Step>)
    requires schedule != []
    ensures After(s, schedule) == After(Apply(s, schedule[0]), schedule[1..])
    decreases |schedule|
  {
    hide Apply;
    var n := |schedule| - 1;
    if n == 0 {
      assert schedule[..0] == [];
    } else {
      AfterFront(s, schedule[..n]);
      assert schedule[1..][..n - 1] == schedule[..n][1..];
    }
  }

  lemma {:induction false} WarrantedFollows(o: Outcomes, s: State, schedule: seq<Step>)
    requires Inv(s) && Warranted(s, o)
    ensures Warranted(After(s, schedule), OutcomesAfter(o, s, schedule))
    decreases |schedule|
  {
    hide Inv, Warranted, Apply, Noted;
    if schedule != [] {
      ApplyKeeps(s, schedule[0]);
      WarrantedStep(s, schedule[0], o);
      AfterFront(s, schedule);
      WarrantedFollows(Noted(o, s, schedule[0]), Apply(s, schedule[0]), schedule[1..]);
    }
  }

  /**
   In every state of every schedule with a live service, or with a recovery that has made or tried to
   make one, the device answered when it was last opened; and a task that is live was created.
   */
  lemma OnlyAfterAnswer(schedule: seq<Step>)
    ensures var s, o := After(Initial(), schedule),
        OutcomesAfter(Outcomes(false, false, false, false), Initial(), schedule);
      && (!s.service.Nobody? || (s.recovery.One? && s.recovery.task.Recreated?) ==> o.answered)
      && (!s.service.Nobody? ==> o.serviceMade)
      && (!s.recovery.Nobody? ==> o.recoveryMade)
      && (!s.callback.Nobody? ==> o.callbackMade)
  {
    hide After, OutcomesAfter;
    Reachable([]);
    assert After(Initial(), []) == Initial() by {
      EmptySchedule();
    }
    WarrantedFollows(Outcomes(false, false, false, false), Initial(), schedule);
    Reachable(schedule);
  }

  lemma EmptySchedule()
    ensures After(Initial(), []) == Initial()
  {
  }

  /** One recovery is live from s to the end of the schedule. */
  predicate SameRecovery(s: State, schedule: seq<Step>)
    decreases |schedule|
  {
    s.recovery.One? && (schedule == [] || SameRecovery(Apply(s, schedule[0]), schedule[1..]))
  }

  /** How often the recovery has opened the device in the course of the schedule with the given result. */
  function Opens(s: State, schedule: seq<Step>, ok: bool): nat
    decreases |schedule|
  {
    if schedule == [] then 0
    else
      var step := schedule[0];
      (if Enabled(s, step) && step.RecoveryOpened? && step.ok == ok then 1 else 0) + Opens(Apply(s, step), schedule[1..], ok)
  }

  /** The failed attempts a recovery has behind it, while it has had no answer. */
  function Failed(r: Recovery): nat {
    match r
    case Requested => 0
    case Attempting(i) => i
    case Pausing(i) => i + 1
    case Recreated(_) => 0
  }

  lemma OpensStep(s: State, step: Step)
    requires Inv(s) && s.recovery.One? && Apply(s, step).recovery.One?
    ensures var r, t := s.recovery.task, Apply(s, step).recovery.task;
      var opens := Enabled(s, step) && step.RecoveryOpened?;
      && (r.Recreated? ==> t == r && !opens)
      && (!r.Recreated? ==> (t.Recreated? <==> opens && step.ok))
      && (!t.Recreated? ==> Failed(t) == Failed(r) + if opens && !step.ok then 1 else 0)
  {
    if !Enabled(s, step) {
      NotEnabled(s, step);
    } else {
      RecoveryAdvances(s, step);
    }
  }

  /**
   As long as a recovery has had no answer from the device, every failed attempt is one that it counts;
   the first answer ends its attempts for good.
   */
  lemma {:induction false} OpensCounted(s: State, schedule: seq<Step>)
    requires Inv(s) && SameRecovery(s, schedule)
    ensures var r, l := s.recovery.task, After(s, schedule).recovery;
      && l.One?
      && (r.Recreated? ==> l.task == r && Opens(s, schedule, true) == Opens(s, schedule, false) == 0)
      && (!r.Recreated? ==> Opens(s, schedule, true) == if l.task.Recreated? then 1 else 0)
      && (!l.task.Recreated? ==> Failed(l.task) == Failed(r) + Opens(s, schedule, false))
    decreases |schedule|
  {
    hide Inv, Apply, Enabled, Failed;
    if schedule != [] {
      var t := Apply(s, schedule[0]);
      ApplyKeeps(s, schedule[0]);
      AfterFront(s, schedule);
      OpensStep(s, schedule[0]);
      OpensCounted(t, schedule[1..]);
    }
  }

  /**
   The system is restarted by a service that fails when no recovery can be created, by a recovery that
   cannot create its service, and by the end of the last pause of one that is not to stop; by nothing else.
   */
  predicate Restarts(s: State, step: Step) {
    Enabled(s, step)
    && ((step == ServiceFails(false) && !s.stopRequested && s.recovery.Nobody?)
        || (step.RecoveryOver? && s.recovery.task == Recreated(false))
        || (step.RecoveryPaused? && s.recovery.task == Pausing(ATTEMPTS - 1) && !s.stopRequested))
  }

  lemma RestartsThen(s: State, step: Step)
    requires Inv(s) && Restarts(s, step)
    ensures Apply(s, step).restarted
  {
  }

  lemma RestartsOnlyThen(s: State, step: Step)
    requires Inv(s) && !s.restarted && Apply(s, step).restarted
    ensures Restarts(s, step)
  {
    if OfService(step) {
    } else if OfRecovery(step) {
    } else if OfQueue(step) {
    } else {
    }
  }

  lemma RestartsExactly(s: State, step: Step)
    requires Inv(s) && !s.restarted
    ensures Apply(s, step).restarted <==> Restarts(s, step)
  {
    hide Inv, Apply, Restarts;
    if Restarts(s, step) {
      RestartsThen(s, step);
    } else if Apply(s, step).restarted {
      RestartsOnlyThen(s, step);
    }
  }

  /** A recovery that restarts the system without having had an answer has seen exactly a hundred attempts fail. */
  lemma GivesUpAfterAll(before: seq<Step>, schedule: seq<Step>, step: Step)
    requires var s := After(Initial(), before); s.recovery == One(Requested) && SameRecovery(s, schedule)
    requires var t := After(After(Initial(), before), schedule);
      t.recovery.One? && !t.restarted && !t.recovery.task.Recreated? && OfRecovery(step) && Apply(t, step).restarted
    ensures var s := After(Initial(), before);
      Opens(s, schedule, false) == ATTEMPTS && Opens(s, schedule, true) == 0
  {
    var s := After(Initial(), before);
    Reachable(before);
    OpensCounted(s, schedule);
    InvFollows(s, schedule);
    RestartsExactly(After(s, schedule), step);
  }

  lemma {:induction false} InvFollows(s: State, schedule: seq<Step>)
    requires Inv(s)
    ensures Inv(After(s, schedule))
  {
    hide Inv, Apply;
    if schedule != [] {
      var n := |schedule| - 1;
      InvFollows(s, schedule[..n]);
      ApplyKeeps(After(s, schedule[..n]), schedule[n]);
    }
  }

  /** An event is accepted exactly if somebody drives the device and fewer than 64 accepted ones are still to be taken. */
  lemma AcceptedExactly(s: State, e: int)
    requires Inv(s) && !s.restarted
    ensures Apply(s, SensorEvent(e)).accepted
         == if SomebodyDrives(s) && |s.accepted| - |s.taken| < QUEUE_LENGTH then s.accepted + [e] else s.accepted
  {
  }

  // ---------- what a recovery does not promise ----------

  /** There is a service, or a recovery that has not yet made its service. */
  predicate Attended(s: State) {
    s.service.One? || (s.recovery.One? && s.recovery.task != Recreated(true))
  }

  /** The service fails while the recovery that has made it is still waiting, and no stop is requested. */
  predicate FailsEarly(s: State, step: Step) {
    Enabled(s, step) && step.ServiceFails? && s.recovery == One(Recreated(true)) && !s.stopRequested
  }

  /** A call of start that finds nothing running begins a session. */
  predicate BeginsSession(s: State, step: Step) {
    Enabled(s, step) && step.Start? && NothingFlagged(s)
  }

  lemma EarlyFailureLoses(s: State, step: Step)
    requires Inv(s) && FailsEarly(s, step)
    ensures Apply(s, step).lost
  {
  }

  lemma OnlyEarlyFailureLoses(s: State, step: Step)
    requires Inv(s) && !s.lost && Apply(s, step).lost
    ensures FailsEarly(s, step)
  {
    if OfService(step) {
    } else if OfRecovery(step) {
    } else if OfQueue(step) {
    } else {
    }
  }

  lemma LostUntilNextSession(s: State, step: Step)
    requires Inv(s) && s.lost && Enabled(s, step)
    ensures Apply(s, step).lost <==> !BeginsSession(s, step)
  {
    if OfService(step) {
    } else if OfRecovery(step) {
    } else if OfQueue(step) {
    } else {
    }
  }

  /** The mark is set by an early failure and by nothing else, and goes with the next session. */
  lemma LostStep(s: State, step: Step)
    requires Inv(s)
    ensures Apply(s, step).lost <==> FailsEarly(s, step) || (s.lost && !BeginsSession(s, step))
  {
    hide Inv, Apply, Enabled, NothingFlagged;
    if !Enabled(s, step) {
      NotEnabled(s, step);
    } else if s.lost {
      LostUntilNextSession(s, step);
      if FailsEarly(s, step) {
        EarlyFailureLoses(s, step);
      }
    } else if FailsEarly(s, step) {
      EarlyFailureLoses(s, step);
    } else if Apply(s, step).lost {
      OnlyEarlyFailureLoses(s, step);
    }
  }

  ghost predicate EarlyFailureAt(schedule: seq<Step>, k: nat) {
    k < |schedule| && FailsEarly(After(Initial(), schedule[..k]), schedule[k])
  }

  ghost predicate SessionBeginsAt(schedule: seq<Step>, k: nat) {
    k < |schedule| && BeginsSession(After(Initial(), schedule[..k]), schedule[k])
  }

  /** An early failure in the present session. */
  ghost predicate EarlyFailureIn(schedule: seq<Step>) {
    exists k: nat :: EarlyFailureAt(schedule, k) && forall j: nat :: k < j < |schedule| ==> !SessionBeginsAt(schedule, j)
  }

  lemma EarlyFailureStep(schedule: seq<Step>, step: Step)
    ensures var s := After(Initial(), schedule);
      EarlyFailureIn(schedule + [step]) <==> FailsEarly(s, step) || (EarlyFailureIn(schedule) && !BeginsSession(s, step))
  {
    hide After, FailsEarly, BeginsSession;
    var all, n := schedule + [step], |schedule|;
    assert all[..n] == schedule;
    forall k: nat | k < n
      ensures EarlyFailureAt(all, k) == EarlyFailureAt(schedule, k)
      ensures SessionBeginsAt(all, k) == SessionBeginsAt(schedule, k)
    {
      assert all[..k] == schedule[..k];
    }
    if EarlyFailureIn(schedule) && !BeginsSession(After(Initial(), schedule), step) {
      var k: nat :| EarlyFailureAt(schedule, k) && forall j: nat :: k < j < n ==> !SessionBeginsAt(schedule, j);
      assert EarlyFailureAt(all, k) && forall j: nat :: k < j < n + 1 ==> !SessionBeginsAt(all, j);
    }
    if FailsEarly(After(Initial(), schedule), step) {
      assert EarlyFailureAt(all, n);
    }
    if EarlyFailureIn(all) {
      var k: nat :| EarlyFailureAt(all, k) && forall j: nat :: k < j < n + 1 ==> !SessionBeginsAt(all, j);
      assert k < n ==> !SessionBeginsAt(all, n);
    }
  }

  lemma {:induction false} LostIsEarlyFailure(schedule: seq<Step>)
    ensures After(Initial(), schedule).lost <==> EarlyFailureIn(schedule)
  {
    hide Apply, EarlyFailureIn, Inv, FailsEarly, BeginsSession;
    if schedule == [] {
      NoEarlyFailure();
    } else {
      var n := |schedule| - 1;
      LostIsEarlyFailure(schedule[..n]);
      Reachable(schedule[..n]);
      LostStep(After(Initial(), schedule[..n]), schedule[n]);
      EarlyFailureStep(schedule[..n], schedule[n]);
      assert schedule[..n] + [schedule[n]] == schedule;
    }
  }

  lemma NoEarlyFailure()
    ensures !EarlyFailureIn([])
  {
  }

  /**
   A session that is neither stopped nor restarted is attended exactly if in its schedule no
   service has failed while the recovery that made it was still waiting.
   */
  lemma SessionSurvives(schedule: seq<Step>)
    ensures var s := After(Initial(), schedule);
      s.controller.Outside? && s.callback.One? && !s.restarted ==> (Attended(s) <==> !EarlyFailureIn(schedule))
  {
    hide After, EarlyFailureIn;
    Reachable(schedule);
    LostIsEarlyFailure(schedule);
  }

  lemma Then(p: seq<Step>, s: State, step: Step) returns (q: seq<Step>, t: State)
    requires After(Initial(), p) == s
    ensures t == Apply(s, step) && After(Initial(), q) == t
  {
    q, t := p + [step], Apply(s, step);
    assert q[..|p|] == p;
  }

  lemma UpToStarted() returns (p: seq<Step>, s: State)
    ensures After(Initial(), p) == s
    ensures s == State(false, false, false, false, false, true, false, false, Queue([]),
                       StartingCallback, Nobody, Nobody, One(Waking), false, [], [], false)
  {
    p := [Start(true, true)];
    s := Apply(Initial(), p[0]);
    assert p[..0] == [];
  }

  lemma UpToOpened() returns (p: seq<Step>, s: State)
    ensures After(Initial(), p) == s
    ensures s == State(false, false, false, false, false, true, false, false, Queue([]),
                       Opened, Nobody, Nobody, One(Waking), false, [], [], false)
  {
    hide After, ServiceStep, RecoveryStep, QueueStep, MakeCallbackTask;
    p, s := UpToStarted();
    p, s := Then(p, s, StartOpening);
    p, s := Then(p, s, StartOpened(true));
  }

  lemma UpToMade() returns (p: seq<Step>, s: State)
    ensures After(Initial(), p) == s
    ensures s == State(true, false, false, false, false, true, false, false, Queue([]),
                       Outside, One(Made), Nobody, One(Waking), false, [], [], false)
  {
    hide After, ServiceStep, RecoveryStep, QueueStep, MakeCallbackTask, NothingFlagged;
    p, s := UpToOpened();
    p, s := Then(p, s, StartMakeTask(true));
    p, s := Then(p, s, StartMadeTask);
  }

  lemma UpToRequested() returns (p: seq<Step>, s: State)
    ensures After(Initial(), p) == s
    ensures s == State(false, false, true, true, false, true, false, false, Queue([]),
                       Outside, Nobody, One(Requested), One(Waking), false, [], [], false)
  {
    hide After, RecoveryStep, QueueStep, ControllerStep;
    p, s := UpToMade();
    p, s := Then(p, s, ServiceRuns);
    p, s := Then(p, s, ServiceFails(true));
  }

  lemma UpToAttempting() returns (p: seq<Step>, s: State)
    ensures After(Initial(), p) == s
    ensures s == State(false, false, true, true, false, true, false, false, Queue([]),
                       Outside, Nobody, One(Attempting(0)), One(Waking), false, [], [], false)
  {
    hide After, ServiceStep, QueueStep, ControllerStep;
    p, s := UpToRequested();
    p, s := Then(p, s, RecoveryRuns);
  }

  lemma UpToRecreated() returns (p: seq<Step>, s: State)
    ensures After(Initial(), p) == s
    ensures s == State(true, true, true, true, false, true, false, false, Queue([]),
                       Outside, One(Looping), One(Recreated(true)), One(Waking), false, [], [], false)
  {
    hide After, QueueStep, ControllerStep, SomebodyDrives, RecoveryLoop;
    p, s := UpToAttempting();
    p, s := Then(p, s, RecoveryOpened(true, true));
    p, s := Then(p, s, ServiceRuns);
  }

  /**
   If the service that a recovery has made fails within the ten milliseconds before that recovery
   is over, no further recovery is requested: the session goes on with nobody to serve it.
   */
  lemma EarlyFailureIsLost()
    ensures exists schedule :: var s := After(Initial(), schedule);
      s.controller.Outside? && s.callback.One? && !s.restarted && !Attended(s)
  {
    hide After;
    var p, s := UpToRecreated();
    p, s := Then(p, s, ServiceFails(true));
    p, s := Then(p, s, RecoveryOver);
  }
}
