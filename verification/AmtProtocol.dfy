/**
 The AMT activation client of the platform manageability agent as an interleaving of
 atomic steps: one periodic caller and any number of background deactivation workers
 share the previous state, the connecting timer and the deactivation flag.
 Every locked section of the source is one step, every clock or AMT reading another.
 */
module AmtProtocol {
  import opened Clock
  import opened Wrappers

  const CONNECTING_STATE_TIMEOUT := 180 * SECOND
  const POLL_TIMEOUT := 60 * SECOND
  const POLL_INTERVAL := 10 * SECOND
  const MAX_POLLS := 7

  const NOT_CONNECTED := "not connected"
  const CONNECTING := "connecting"
  const CONNECTED := "connected"

  datatype Status = Unspecified | Activating | Activated | ActivationFailed

  /** The client fields that the mutex guards. */
  datatype Shared = Shared(previousState: string, startTime: Option<int>, inProgress: bool)

  /** Where the periodic caller stands between two locked sections. */
  datatype Caller =
    | Idle
    | RunningActivation
    | Entering(now: int)
    | Updating(now: int)
    | Comparing(now: int, start: Option<int>)
    | Triggering
    | Launching

  /** Where a deactivation worker stands; start is its clock reading before the poll loop. */
  datatype Worker =
    | Started
    | Waiting(start: int, polls: nat, wake: int)
    | Reading(start: int, polls: nat)
    | Confirming
    | Exiting

  datatype State = State(
    clock: int,
    shared: Shared,
    caller: Caller,
    workers: map<nat, Worker>,
    nextWorker: nat,
    result: Status,
    crashed: bool)

  datatype Step =
    | Tick(elapsed: nat)
    | PollFails
    | ReadNotConnected
    | ReadConnected
    | ReadOther(status: string)
    | ReadConnecting
    | ActivationEnds(authenticationFailed: bool)
    | EnterLock
    | UpdateLock
    | Compare
    | TriggerLock
    | Launch
    | WorkerCommand(id: nat, succeeded: bool)
    | WorkerCheck(id: nat)
    | WorkerInfo(id: nat, reading: Option<string>)
    | WorkerConfirm(id: nat)
    | WorkerFinish(id: nat)

  const INITIAL := State(0, Shared("", None, false), Idle, map[], 0, Unspecified, false)

  /** The worker a step belongs to, if it is a worker's step. */
  function WorkerOf(step: Step): Option<nat> {
    match step
    case WorkerCommand(id, _) => Some(id)
    case WorkerCheck(id) => Some(id)
    case WorkerInfo(id, _) => Some(id)
    case WorkerConfirm(id) => Some(id)
    case WorkerFinish(id) => Some(id)
    case _ => None
  }

  predicate Enabled(s: State, step: Step) {
    match step
    case Tick(_) => true
    case PollFails => s.caller.Idle?
    case ReadNotConnected => s.caller.Idle?
    case ReadConnected => s.caller.Idle?
    case ReadOther(status) => s.caller.Idle? && status !in {NOT_CONNECTED, CONNECTING, CONNECTED}
    case ReadConnecting => s.caller.Idle?
    case ActivationEnds(_) => s.caller.RunningActivation?
    case EnterLock => s.caller.Entering?
    case UpdateLock => s.caller.Updating?
    case Compare => s.caller.Comparing?
    case TriggerLock => s.caller.Triggering?
    case Launch => s.caller.Launching?
    case WorkerCommand(id, _) => id in s.workers && s.workers[id].Started?
    case WorkerCheck(id) => id in s.workers && s.workers[id].Waiting? && s.workers[id].wake <= s.clock
    case WorkerInfo(id, _) => id in s.workers && s.workers[id].Reading?
    case WorkerConfirm(id) => id in s.workers && s.workers[id].Confirming?
    case WorkerFinish(id) => id in s.workers && s.workers[id].Exiting?
  }

  function Next(s: State, step: Step): State
    requires Enabled(s, step)
  {
    match step
    case Tick(elapsed) => s.(clock := s.clock + elapsed)
    case PollFails => s
    case ReadNotConnected =>
      s.(shared := s.shared.(previousState := NOT_CONNECTED, startTime := None), caller := RunningActivation)
    case ReadConnected => s.(shared := s.shared.(previousState := CONNECTED, startTime := None))
    case ReadOther(status) => s.(shared := s.shared.(previousState := status))
    case ReadConnecting => s.(caller := Entering(s.clock))
    case ActivationEnds(authenticationFailed) => s.(caller := if authenticationFailed then Triggering else Idle)
    case EnterLock =>
      var now := s.caller.now;
      if s.shared.startTime.None? then
        s.(shared := s.shared.(startTime := Some(now)),
           caller := if s.shared.previousState != NOT_CONNECTED then Triggering else Updating(now))
      else s.(caller := Updating(now))
    case UpdateLock =>
      s.(shared := s.shared.(previousState := CONNECTING),
         caller := Comparing(s.caller.now, s.shared.startTime))
    case Compare =>
      (match s.caller.start
       case None => s.(crashed := true)
       case Some(start) =>
         if s.caller.now - start > CONNECTING_STATE_TIMEOUT then s.(caller := Triggering)
         else s.(caller := Idle, result := Activating))
    case TriggerLock =>
      if s.shared.inProgress then s.(caller := Idle, result := Activating)
      else s.(shared := s.shared.(inProgress := true, startTime := None), caller := Launching)
    case Launch =>
      s.(workers := s.workers[s.nextWorker := Started], nextWorker := s.nextWorker + 1,
         caller := Idle, result := ActivationFailed)
    case WorkerCommand(id, succeeded) =>
      s.(workers := s.workers[id := if succeeded then Waiting(s.clock, 0, s.clock) else Exiting])
    case WorkerCheck(id) =>
      var w := s.workers[id];
      s.(workers := s.workers[id := if s.clock - w.start > POLL_TIMEOUT then Exiting
                                    else Reading(w.start, w.polls + 1)])
    case WorkerInfo(id, reading) =>
      var w := s.workers[id];
      s.(workers := s.workers[id := if reading == Some(NOT_CONNECTED) then Confirming
                                    else Waiting(w.start, w.polls, s.clock + POLL_INTERVAL)])
    case WorkerConfirm(id) =>
      s.(shared := s.shared.(previousState := NOT_CONNECTED), workers := s.workers[id := Exiting])
    case WorkerFinish(id) =>
      s.(shared := s.shared.(inProgress := false), workers := s.workers - {id})
  }

  ghost predicate IsRun(trace: seq<State>, steps: seq<Step>) {
    && |trace| == |steps| + 1
    && forall i :: 0 <= i < |steps| ==> Enabled(trace[i], steps[i]) && trace[i + 1] == Next(trace[i], steps[i])
  }

  // ----- Safety -----

  /** Pending launches and live workers together. */
  function ActiveWorkers(s: State): nat {
    |s.workers| + (if s.caller.Launching? then 1 else 0)
  }

  predicate WorkerOnTime(w: Worker, clock: int) {
    match w
    case Waiting(start, polls, wake) => polls <= MAX_POLLS && start + polls * POLL_INTERVAL <= wake
    case Reading(start, polls) => 1 <= polls <= MAX_POLLS && start + (polls - 1) * POLL_INTERVAL <= clock
    case _ => true
  }

  predicate CallerSound(s: State) {
    match s.caller
    case Entering(now) => now <= s.clock
    case Updating(now) => now <= s.clock && s.shared.startTime.Some?
    case Comparing(now, start) => start.Some? && start == s.shared.startTime
    case Launching => s.shared.startTime.None?
    case _ => true
  }

  ghost predicate Safe(s: State) {
    && !s.crashed
    && ActiveWorkers(s) == (if s.shared.inProgress then 1 else 0)
    && (forall id :: id in s.workers ==> id < s.nextWorker && WorkerOnTime(s.workers[id], s.clock))
    && CallerSound(s)
    && (s.shared.startTime.Some? ==> s.shared.startTime.value <= s.clock)
  }

  lemma WorkerStepIsSafe(s: State, step: Step)
    requires Safe(s) && Enabled(s, step) && WorkerOf(step).Some?
    ensures Safe(Next(s, step))
  {
  }

  lemma CallerStepIsSafe(s: State, step: Step)
    requires Safe(s) && Enabled(s, step) && WorkerOf(step).None?
    ensures Safe(Next(s, step))
  {
  }

  lemma SafeStep(s: State, step: Step)
    requires Safe(s) && Enabled(s, step)
    ensures Safe(Next(s, step))
  {
    hide Next, Enabled, Safe, WorkerOf;
    if WorkerOf(step).Some? {
      WorkerStepIsSafe(s, step);
    } else {
      CallerStepIsSafe(s, step);
    }
  }

  /**
   In every interleaving: no crash on a missing start time, the flag is set exactly while
   one worker is pending or alive, two never coexist, and no worker polls more than seven times.
   */
  lemma {:induction false} EveryRunIsSafe(trace: seq<State>, steps: seq<Step>, i: nat)
    requires IsRun(trace, steps) && trace[0] == INITIAL
    requires i < |trace|
    ensures Safe(trace[i])
  {
    if i > 0 {
      EveryRunIsSafe(trace, steps, i - 1);
      SafeStep(trace[i - 1], steps[i - 1]);
    }
  }

  // ----- Workers end -----

  /** How many further steps a worker can take at most. */
  function WorkerRank(w: Worker): int {
    match w
    case Started => 2 * MAX_POLLS + 4
    case Waiting(_, polls, _) => 2 * (MAX_POLLS - polls) + 3
    case Reading(_, polls) => 2 * (MAX_POLLS - polls) + 4
    case Confirming => 2
    case Exiting => 1
  }

  function RankOf(s: State, id: nat): int {
    if id in s.workers then WorkerRank(s.workers[id]) else 0
  }

  function Count(b: bool): nat {
    if b then 1 else 0
  }

  function WorkerSteps(steps: seq<Step>, id: nat): nat {
    if steps == [] then 0
    else WorkerSteps(steps[..|steps| - 1], id) + Count(WorkerOf(steps[|steps| - 1]) == Some(id))
  }

  lemma WorkerStepsExtend(steps: seq<Step>, i: nat, j: nat, id: nat)
    requires i < j <= |steps|
    ensures WorkerSteps(steps[i..j], id) == WorkerSteps(steps[i..j - 1], id) + Count(WorkerOf(steps[j - 1]) == Some(id))
  {
    assert steps[i..j][..|steps[i..j]| - 1] == steps[i..j - 1];
  }

  /** A worker's own step lowers its rank; no other step changes it. */
  lemma RankStep(s: State, step: Step, id: nat)
    requires Safe(s) && Enabled(s, step) && id < s.nextWorker
    ensures RankOf(Next(s, step), id) + Count(WorkerOf(step) == Some(id)) <= RankOf(s, id)
    ensures id < Next(s, step).nextWorker
  {
  }

  lemma {:induction false} RankPaysForSteps(trace: seq<State>, steps: seq<Step>, i: nat, j: nat, id: nat)
    requires IsRun(trace, steps) && trace[0] == INITIAL
    requires i <= j < |trace| && id < trace[i].nextWorker
    ensures id < trace[j].nextWorker
    ensures WorkerSteps(steps[i..j], id) + RankOf(trace[j], id) <= RankOf(trace[i], id)
    decreases j
  {
    hide Next, Enabled, Safe, RankOf;
    if i < j {
      RankPaysForSteps(trace, steps, i, j - 1, id);
      EveryRunIsSafe(trace, steps, j - 1);
      RankStep(trace[j - 1], steps[j - 1], id);
      WorkerStepsExtend(steps, i, j, id);
    }
  }

  /** Whatever the others do, a launched worker takes at most 18 steps in any stretch of any run. */
  lemma WorkersAreBounded(trace: seq<State>, steps: seq<Step>, i: nat, j: nat, id: nat)
    requires IsRun(trace, steps) && trace[0] == INITIAL
    requires i <= j < |trace| && id < trace[i].nextWorker
    ensures WorkerSteps(steps[i..j], id) <= 2 * MAX_POLLS + 4
  {
    EveryRunIsSafe(trace, steps, j);
    EveryRunIsSafe(trace, steps, i);
    RankPaysForSteps(trace, steps, i, j, id);
  }

  /** A live worker is never stuck: after its wake-up time passes, some step of its own is enabled. */
  lemma WorkersProgress(s: State, id: nat) returns (step: Step)
    requires id in s.workers
    requires s.workers[id].Waiting? ==> s.workers[id].wake <= s.clock
    ensures Enabled(s, step) && (WorkerOf(step) == Some(id))
  {
    match s.workers[id]
    case Started => step := WorkerCommand(id, true);
    case Waiting(_, _, _) => step := WorkerCheck(id);
    case Reading(_, _) => step := WorkerInfo(id, None);
    case Confirming => step := WorkerConfirm(id);
    case Exiting => step := WorkerFinish(id);
  }

  /** The step that ends a worker clears the flag and leaves no worker behind. */
  lemma WorkerEndsWithFlagCleared(trace: seq<State>, steps: seq<Step>, i: nat)
    requires IsRun(trace, steps) && trace[0] == INITIAL
    requires i < |steps| && steps[i].WorkerFinish?
    ensures !trace[i + 1].shared.inProgress && trace[i + 1].workers == map[]
  {
    EveryRunIsSafe(trace, steps, i + 1);
  }

  /** The worker is yet to be launched, or has not run its command. */
  predicate IsNew(s: State, id: nat) {
    id >= s.nextWorker || (id in s.workers && s.workers[id].Started?)
  }

  lemma NewWorkerStep(s: State, step: Step, id: nat)
    requires Safe(s) && Enabled(s, step) && IsNew(Next(s, step), id)
    ensures IsNew(s, id) && WorkerOf(step) != Some(id)
  {
  }

  /** A new worker has taken no step: ids are never reused. */
  lemma {:induction false} NewWorkersTookNoStep(trace: seq<State>, steps: seq<Step>, i: nat, id: nat)
    requires IsRun(trace, steps) && trace[0] == INITIAL && i < |trace| && IsNew(trace[i], id)
    ensures forall k :: 0 <= k < i ==> WorkerOf(steps[k]) != Some(id)
  {
    hide Next, Enabled, Safe, IsNew;
    if i > 0 {
      EveryRunIsSafe(trace, steps, i - 1);
      NewWorkerStep(trace[i - 1], steps[i - 1], id);
      NewWorkersTookNoStep(trace, steps, i - 1, id);
    }
  }

  // ----- What a worker does -----

  /** The next step of a worker, after a step taken at one time and its next at another, given when polling began. */
  predicate FollowsRoutine(polling: int, step: Step, at: int, next: Step, nextAt: int) {
    match step
    case WorkerCommand(_, succeeded) => if succeeded then next.WorkerCheck? else next.WorkerFinish?
    case WorkerCheck(_) => if at - polling > POLL_TIMEOUT then next.WorkerFinish? else next.WorkerInfo?
    case WorkerInfo(_, reading) =>
      if reading == Some(NOT_CONNECTED) then next.WorkerConfirm? else next.WorkerCheck? && nextAt >= at + POLL_INTERVAL
    case WorkerConfirm(_) => next.WorkerFinish?
    case _ => false
  }

  /** Only its own steps move a launched worker. */
  lemma {:induction false} WorkerStays(trace: seq<State>, steps: seq<Step>, i: nat, k: nat, id: nat)
    requires IsRun(trace, steps) && i <= k < |trace| && id < trace[i].nextWorker
    requires forall n :: i <= n < k ==> WorkerOf(steps[n]) != Some(id)
    ensures id < trace[k].nextWorker && (id in trace[k].workers <==> id in trace[i].workers)
    ensures id in trace[i].workers ==> trace[k].workers[id] == trace[i].workers[id]
    decreases k
  {
    if i < k {
      WorkerStays(trace, steps, i, k - 1, id);
    }
  }

  /** A worker that ran its command remembers when it began to poll. */
  predicate RemembersStart(s: State, id: nat, polling: int) {
    id in s.workers ==>
      match s.workers[id]
      case Started => false
      case Waiting(start, _, _) => start == polling
      case Reading(start, _) => start == polling
      case _ => true
  }

  lemma {:induction false} StartStays(trace: seq<State>, steps: seq<Step>, c: nat, k: nat, id: nat)
    requires IsRun(trace, steps) && trace[0] == INITIAL && c < k < |trace|
    requires steps[c].WorkerCommand? && WorkerOf(steps[c]) == Some(id)
    ensures id < trace[k].nextWorker && RemembersStart(trace[k], id, trace[c].clock)
    decreases k
  {
    if c < k - 1 {
      StartStays(trace, steps, c, k - 1, id);
    } else {
      EveryRunIsSafe(trace, steps, c);
    }
  }

  /** The first thing a worker does is to run its command. */
  lemma {:induction false} NewWorkersAreStarted(trace: seq<State>, steps: seq<Step>, j: nat, id: nat)
    requires IsRun(trace, steps) && trace[0] == INITIAL && j < |trace| && id in trace[j].workers
    requires forall n :: 0 <= n < j ==> WorkerOf(steps[n]) != Some(id)
    ensures trace[j].workers[id].Started?
  {
    if id in trace[j - 1].workers {
      NewWorkersAreStarted(trace, steps, j - 1, id);
    }
  }

  lemma CommandComesFirst(trace: seq<State>, steps: seq<Step>, j: nat, id: nat)
    requires IsRun(trace, steps) && trace[0] == INITIAL && j < |steps| && WorkerOf(steps[j]) == Some(id)
    requires forall n :: 0 <= n < j ==> WorkerOf(steps[n]) != Some(id)
    ensures steps[j].WorkerCommand?
  {
    NewWorkersAreStarted(trace, steps, j, id);
  }

  /**
   In every interleaving, a worker whose command succeeded reads the AMT status, ten seconds
   apart at least, until a minute has passed or it reads "not connected", which it then records;
   a worker whose command failed ends at once.
   */
  lemma WorkersFollowTheirRoutine(trace: seq<State>, steps: seq<Step>, c: nat, i: nat, j: nat, id: nat)
    requires IsRun(trace, steps) && trace[0] == INITIAL && c <= i < j < |steps|
    requires steps[c].WorkerCommand? && WorkerOf(steps[c]) == Some(id)
    requires WorkerOf(steps[i]) == Some(id) && WorkerOf(steps[j]) == Some(id)
    requires forall n :: i < n < j ==> WorkerOf(steps[n]) != Some(id)
    ensures FollowsRoutine(trace[c].clock, steps[i], trace[i].clock, steps[j], trace[j].clock)
  {
    EveryRunIsSafe(trace, steps, i);
    if c < i {
      StartStays(trace, steps, c, i, id);
    }
    WorkerStays(trace, steps, i + 1, j, id);
    assert trace[i + 1] == Next(trace[i], steps[i]) && Enabled(trace[i], steps[i]) && Enabled(trace[j], steps[j]);
  }

  // ----- A stuck "connecting" state is always acted on -----

  /** The readings that end a stretch of "connecting" polls; failed polls read nothing. */
  predicate EndsStretch(step: Step) {
    step.ReadNotConnected? || step.ReadConnected? || step.ReadOther?
  }

  /** Inside a stretch that began at t0 and launched nothing, the timer is never later than t0. */
  predicate TimerHolds(s: State, t0: int) {
    || s.caller.Launching?
    || (s.caller == Entering(t0) && s.shared.startTime.None?)
    || (s.shared.startTime.Some? && s.shared.startTime.value <= t0)
  }

  /** A poll read at a time past the limit can only be on its way to the trigger. */
  predicate HeadsForTrigger(s: State, t0: int) {
    match s.caller
    case Entering(now) => now > t0 + CONNECTING_STATE_TIMEOUT
    case Updating(now) => now > t0 + CONNECTING_STATE_TIMEOUT
    case Comparing(now, _) => now > t0 + CONNECTING_STATE_TIMEOUT
    case Triggering => true
    case Launching => true
    case _ => false
  }

  predicate WorkerAlive(s: State) {
    s.workers != map[]
  }

  lemma TimerStep(s: State, step: Step, t0: int)
    requires Enabled(s, step) && !EndsStretch(step) && !step.Launch?
    requires TimerHolds(s, t0) || (step.ReadConnecting? && s.clock == t0 && Safe(s))
    ensures TimerHolds(Next(s, step), t0)
  {
  }

  lemma TriggerPathStep(s: State, step: Step, t0: int)
    requires Safe(s) && Enabled(s, step) && TimerHolds(s, t0) && HeadsForTrigger(s, t0)
    requires !step.Launch? && !(step.TriggerLock? && WorkerAlive(s))
    ensures HeadsForTrigger(Next(s, step), t0)
  {
  }

  lemma {:induction false} TimerHoldsInStretch(trace: seq<State>, steps: seq<Step>, i: nat, k: nat)
    requires IsRun(trace, steps) && trace[0] == INITIAL
    requires i < k < |trace| && steps[i].ReadConnecting?
    requires forall n :: i <= n < k ==> !EndsStretch(steps[n]) && !steps[n].Launch?
    ensures TimerHolds(trace[k], trace[i].clock)
  {
    if k - 1 > i {
      TimerHoldsInStretch(trace, steps, i, k - 1);
    } else {
      EveryRunIsSafe(trace, steps, i);
    }
    TimerStep(trace[k - 1], steps[k - 1], trace[i].clock);
  }

  lemma {:induction false} LatePollHeadsForTrigger(trace: seq<State>, steps: seq<Step>, i: nat, p: nat, k: nat)
    requires IsRun(trace, steps) && trace[0] == INITIAL
    requires i <= p < k < |trace| && steps[i].ReadConnecting? && steps[p].ReadConnecting?
    requires trace[p].clock > trace[i].clock + CONNECTING_STATE_TIMEOUT
    requires forall n :: i <= n < k ==> !EndsStretch(steps[n]) && !steps[n].Launch?
    requires forall n :: p <= n < k ==> !(steps[n].TriggerLock? && WorkerAlive(trace[n]))
    ensures HeadsForTrigger(trace[k], trace[i].clock)
  {
    if k - 1 > p {
      LatePollHeadsForTrigger(trace, steps, i, p, k - 1);
      TimerHoldsInStretch(trace, steps, i, k - 1);
      EveryRunIsSafe(trace, steps, k - 1);
      TriggerPathStep(trace[k - 1], steps[k - 1], trace[i].clock);
    }
  }

  /**
   Take any stretch of polls that read nothing but "connecting", its first reading at t0.
   A poll in it that reads later than t0 + 3 min and has returned by index e either found a
   live worker when it tried to trigger, or a launch happened in the stretch by then.
   */
  lemma StuckPollsAreActedOn(trace: seq<State>, steps: seq<Step>, i: nat, p: nat, e: nat)
    requires IsRun(trace, steps) && trace[0] == INITIAL
    requires i <= p < e < |trace| && steps[i].ReadConnecting? && steps[p].ReadConnecting?
    requires trace[p].clock > trace[i].clock + CONNECTING_STATE_TIMEOUT
    requires forall n :: i <= n < e ==> !EndsStretch(steps[n])
    requires trace[e].caller.Idle?
    ensures || (exists n :: i <= n < e && steps[n].Launch?)
            || (exists n :: p <= n < e && steps[n].TriggerLock? && WorkerAlive(trace[n]))
  {
    if (forall n :: i <= n < e ==> !steps[n].Launch?)
       && (forall n :: p <= n < e ==> !(steps[n].TriggerLock? && WorkerAlive(trace[n])))
    {
      LatePollHeadsForTrigger(trace, steps, i, p, e);
      assert false;
    }
  }

  // ----- ... and never too early -----

  /** The steps that clear the stored start time. */
  predicate ClearsTimer(s: State, step: Step) {
    step.ReadNotConnected? || step.ReadConnected? || (step.TriggerLock? && !s.shared.inProgress)
  }

  /** The r-th step read "connecting" at time t, and nothing has cleared the timer since. */
  ghost predicate IsReadingSince(trace: seq<State>, steps: seq<Step>, r: nat, i: nat, t: int)
    requires IsRun(trace, steps) && r < i < |trace|
  {
    steps[r].ReadConnecting? && trace[r].clock == t && forall k :: r <= k < i ==> !ClearsTimer(trace[k], steps[k])
  }

  /** A time that is stored, or about to be, is that of a reading nothing has cleared since. */
  ghost predicate TimesAreReadings(trace: seq<State>, steps: seq<Step>, i: nat)
    requires IsRun(trace, steps) && i < |trace|
  {
    && (trace[i].shared.startTime.Some? ==>
          exists r :: 0 <= r < i && IsReadingSince(trace, steps, r, i, trace[i].shared.startTime.value))
    && (trace[i].caller.Entering? ==> exists r :: 0 <= r < i && IsReadingSince(trace, steps, r, i, trace[i].caller.now))
  }

  /** Where the times of a state come from, one step back. */
  lemma TimesStep(s: State, step: Step)
    requires Enabled(s, step)
    ensures var t := Next(s, step);
            && (t.shared.startTime.Some? ==>
                  !ClearsTimer(s, step)
                  && (t.shared.startTime == s.shared.startTime
                      || (s.caller.Entering? && t.shared.startTime == Some(s.caller.now))))
            && (t.caller.Entering? ==>
                  (step.ReadConnecting? && t.caller.now == s.clock) || (t.caller == s.caller && !ClearsTimer(s, step)))
  {
  }

  lemma ReadingStays(trace: seq<State>, steps: seq<Step>, before: nat, i: nat, t: int)
    requires IsRun(trace, steps) && i == before + 1 < |trace| && !ClearsTimer(trace[before], steps[before])
    requires exists r :: 0 <= r < before && IsReadingSince(trace, steps, r, before, t)
    ensures exists r :: 0 <= r < i && IsReadingSince(trace, steps, r, i, t)
  {
    var r :| 0 <= r < before && IsReadingSince(trace, steps, r, before, t);
    assert IsReadingSince(trace, steps, r, i, t);
  }

  lemma {:induction false} StoredTimesAreReadings(trace: seq<State>, steps: seq<Step>, i: nat)
    requires IsRun(trace, steps) && trace[0] == INITIAL && i < |trace|
    ensures TimesAreReadings(trace, steps, i)
  {
    if i > 0 {
      StoredTimesAreReadings(trace, steps, i - 1);
      var s, step := trace[i - 1], steps[i - 1];
      TimesStep(s, step);
      if step.ReadConnecting? {
        assert IsReadingSince(trace, steps, i - 1, i, s.clock);
      }
      hide Next, Enabled, IsReadingSince;
      if trace[i].shared.startTime.Some? {
        ReadingStays(trace, steps, i - 1, i, trace[i].shared.startTime.value);
      }
      if trace[i].caller.Entering? && !step.ReadConnecting? {
        ReadingStays(trace, steps, i - 1, i, trace[i].caller.now);
      }
    }
  }

  /** The status recorded last, by a poll or by a worker. */
  function LastRecorded(steps: seq<Step>): string {
    if steps == [] then ""
    else match steps[|steps| - 1]
      case ReadNotConnected => NOT_CONNECTED
      case ReadConnected => CONNECTED
      case ReadOther(status) => status
      case UpdateLock => CONNECTING
      case WorkerConfirm(_) => NOT_CONNECTED
      case _ => LastRecorded(steps[..|steps| - 1])
  }

  lemma {:induction false} PreviousStateIsLastRecorded(trace: seq<State>, steps: seq<Step>, i: nat)
    requires IsRun(trace, steps) && trace[0] == INITIAL && i < |trace|
    ensures trace[i].shared.previousState == LastRecorded(steps[..i])
  {
    if i > 0 {
      PreviousStateIsLastRecorded(trace, steps, i - 1);
      assert steps[..i][..i - 1] == steps[..i - 1];
    }
  }

  /**
   Deactivation is never triggered too early: the caller only gets there after an activation
   that failed to authenticate, or on a first "connecting" that did not follow "not connected",
   or when the present reading is more than three minutes later than another one of "connecting"
   since when neither a reading nor a deactivation has cleared the timer.
   */
  lemma TriggersAreDue(trace: seq<State>, steps: seq<Step>, n: nat)
    requires IsRun(trace, steps) && trace[0] == INITIAL && n < |steps|
    requires !trace[n].caller.Triggering? && trace[n + 1].caller.Triggering?
    ensures
      || steps[n] == ActivationEnds(true)
      || (steps[n].EnterLock? && trace[n].shared.startTime.None? && LastRecorded(steps[..n]) != NOT_CONNECTED)
      || (steps[n].Compare?
          && exists r :: 0 <= r < n && IsReadingSince(trace, steps, r, n, trace[r].clock)
                         && trace[n].caller.now - trace[r].clock > CONNECTING_STATE_TIMEOUT)
  {
    EveryRunIsSafe(trace, steps, n);
    PreviousStateIsLastRecorded(trace, steps, n);
    StoredTimesAreReadings(trace, steps, n);
    if steps[n].Compare? {
      var start := trace[n].shared.startTime.value;
      var r :| 0 <= r < n && IsReadingSince(trace, steps, r, n, start);
      assert IsReadingSince(trace, steps, r, n, trace[r].clock);
    }
  }

  /** What one step does to a call that is under way. */
  lemma CallStep(s: State, step: Step)
    requires Enabled(s, step) && !s.caller.Idle?
    ensures step.Launch? ==> Next(s, step).caller.Idle? && Next(s, step).result.ActivationFailed?
    ensures !step.Launch? && Next(s, step).caller.Idle? && !s.caller.RunningActivation? ==>
              Next(s, step).result.Activating?
    ensures !s.caller.RunningActivation? ==> !Next(s, step).caller.RunningActivation?
  {
  }

  lemma {:induction false} NotActivating(trace: seq<State>, steps: seq<Step>, p: nat, n: nat)
    requires IsRun(trace, steps)
    requires p < n < |trace| && steps[p].ReadConnecting?
    requires forall k :: p < k < n ==> !trace[k].caller.Idle?
    ensures !trace[n].caller.RunningActivation?
  {
    if p + 1 < n {
      NotActivating(trace, steps, p, n - 1);
      CallStep(trace[n - 1], steps[n - 1]);
    }
  }

  /** A connecting poll returns ACTIVATION_FAILED exactly when it launched a worker itself. */
  lemma FailedExactlyWhenLaunched(trace: seq<State>, steps: seq<Step>, p: nat, e: nat)
    requires IsRun(trace, steps)
    requires p < e < |trace| && steps[p].ReadConnecting?
    requires trace[e].caller.Idle? && forall n :: p < n < e ==> !trace[n].caller.Idle?
    ensures trace[e].result.ActivationFailed? <==> exists n :: p <= n < e && steps[n].Launch?
  {
    assert p + 1 < e by {
      assert trace[p + 1] == Next(trace[p], steps[p]);
    }
    NotActivating(trace, steps, p, e - 1);
    CallStep(trace[e - 1], steps[e - 1]);
    forall n | p <= n < e && steps[n].Launch?
      ensures n == e - 1
    {
      assert trace[n + 1] == Next(trace[n], steps[n]);
    }
  }
}
