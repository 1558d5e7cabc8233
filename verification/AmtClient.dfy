/**
 The client object itself: handleConnectingState and performDeactivationAsync as code over the
 client's fields, interrupted by the other thread wherever the source releases the mutex.
 Every execution is recorded and shown to be a run of the protocol, so the protocol's
 theorems are theorems about this code.
 */
module AmtClient {
  import opened Wrappers
  import opened AmtProtocol

  class Client {
    var previousState: string
    var connectingStateStartTime: Option<int>
    var deactivationInProgress: bool
    // The runtime around the client: the clock and the goroutines.
    var clock: int
    var caller: Caller
    var workers: map<nat, Worker>
    var nextWorker: nat
    var result: Status
    // Everything that has happened so far.
    ghost var trace: seq<State>
    ghost var steps: seq<Step>

    function Abs(): State
      reads this
    {
      State(clock, Shared(previousState, connectingStateStartTime, deactivationInProgress),
            caller, workers, nextWorker, result, false)
    }

    ghost predicate Valid()
      reads this
    {
      IsRun(trace, steps) && trace[0] == INITIAL && trace[|trace| - 1] == Abs()
    }

    constructor ()
      ensures Valid() && Abs() == INITIAL && steps == []
    {
      previousState, connectingStateStartTime, deactivationInProgress := "", None, false;
      clock, caller, workers, nextWorker, result := 0, Idle, map[], 0, Unspecified;
      trace, steps := [INITIAL], [];
    }

    ghost method Record(step: Step)
      requires IsRun(trace, steps) && trace[0] == INITIAL
      requires Enabled(trace[|trace| - 1], step) && Abs() == Next(trace[|trace| - 1], step)
      modifies this`trace, this`steps
      ensures Valid() && steps == old(steps) + [step]
    {
      trace, steps := trace + [Abs()], steps + [step];
    }

    lemma AlwaysSafe()
      requires Valid()
      ensures Safe(Abs())
    {
      EveryRunIsSafe(trace, steps, |trace| - 1);
    }

    lemma NotConfirmedYet(id: nat)
      requires Valid() && id in workers && workers[id].Started?
      ensures WorkerConfirm(id) !in steps
    {
      NewWorkersTookNoStep(trace, steps, |steps|, id);
      assert WorkerOf(WorkerConfirm(id)) == Some(id);
    }

    /** One step of another thread, or of the clock. */
    method Other(step: Step)
      requires Valid() && Enabled(Abs(), step)
      modifies this
      ensures Valid() && steps == old(steps) + [step] && Abs() == old(Next(Abs(), step))
    {
      AlwaysSafe();
      var t := Next(Abs(), step);
      previousState, connectingStateStartTime := t.shared.previousState, t.shared.startTime;
      deactivationInProgress, clock, caller := t.shared.inProgress, t.clock, t.caller;
      workers, nextWorker, result := t.workers, t.nextWorker, t.result;
      assert Abs() == t by { SafeStep(old(Abs()), step); }
      Record(step);
    }

    /** While the caller holds no lock: time passes and workers move, as scheduled. */
    method WorkersRun(schedule: seq<Step>)
      requires Valid()
      modifies this
      ensures Valid()
      ensures caller == old(caller) && result == old(result) && nextWorker == old(nextWorker)
      ensures connectingStateStartTime == old(connectingStateStartTime)
      ensures previousState in {old(previousState), NOT_CONNECTED}
      ensures !old(deactivationInProgress) ==> !deactivationInProgress && previousState == old(previousState)
    {
      for i := 0 to |schedule|
        invariant Valid()
        invariant caller == old(caller) && result == old(result) && nextWorker == old(nextWorker)
        invariant connectingStateStartTime == old(connectingStateStartTime)
        invariant previousState in {old(previousState), NOT_CONNECTED}
        invariant !old(deactivationInProgress) ==> !deactivationInProgress && previousState == old(previousState)
      {
        if (schedule[i].Tick? || WorkerOf(schedule[i]).Some?) && Enabled(Abs(), schedule[i]) {
          AlwaysSafe();
          Other(schedule[i]);
        }
      }
    }

    /** While worker id holds no lock: time passes and every other thread moves, as scheduled. */
    method OthersRun(id: nat, schedule: seq<Step>)
      requires Valid() && id in workers
      modifies this
      ensures Valid()
      ensures WorkerConfirm(id) in steps <==> WorkerConfirm(id) in old(steps)
      ensures id in workers && workers[id] == old(workers[id]) && old(clock) <= clock
    {
      for i := 0 to |schedule|
        invariant Valid()
        invariant WorkerConfirm(id) in steps <==> WorkerConfirm(id) in old(steps)
        invariant id in workers && workers[id] == old(workers[id]) && old(clock) <= clock
      {
        if WorkerOf(schedule[i]) != Some(id) && Enabled(Abs(), schedule[i]) {
          AlwaysSafe();
          Other(schedule[i]);
        }
      }
    }

    // ----- The locked sections of the caller, one at a time -----

    method ReadClock() returns (now: int)
      requires Valid() && caller.Idle?
      modifies this
      ensures Valid() && steps == old(steps) + [ReadConnecting]
      ensures caller == Entering(now) && now == old(clock)
      ensures nextWorker == old(nextWorker) && deactivationInProgress == old(deactivationInProgress)
      ensures connectingStateStartTime == old(connectingStateStartTime) && previousState == old(previousState)
    {
      now := clock;
      caller := Entering(now);
      Record(ReadConnecting);
    }

    /** The first section: note when "connecting" was first seen; direct says whether to deactivate at once. */
    method EnterConnecting(now: int) returns (direct: bool)
      requires Valid() && caller == Entering(now)
      modifies this
      ensures Valid() && steps == old(steps) + [EnterLock]
      ensures caller == if direct then Triggering else Updating(now)
      ensures direct <==> old(connectingStateStartTime).None? && old(previousState) != NOT_CONNECTED
      ensures connectingStateStartTime
           == if old(connectingStateStartTime).None? then Some(now) else old(connectingStateStartTime)
      ensures nextWorker == old(nextWorker) && deactivationInProgress == old(deactivationInProgress)
    {
      direct := false;
      if connectingStateStartTime.None? {
        connectingStateStartTime := Some(now);
        var previous := previousState;
        direct := previous == "" || previous != NOT_CONNECTED;
      }
      caller := if direct then Triggering else Updating(now);
      Record(EnterLock);
    }

    /** The second section: record the state and fetch the start time, which is never missing. */
    method UpdatePrevious(now: int) returns (start: Option<int>)
      requires Valid() && caller == Updating(now)
      modifies this
      ensures Valid() && steps == old(steps) + [UpdateLock]
      ensures start.Some? && caller == Comparing(now, start) && previousState == CONNECTING
      ensures start == connectingStateStartTime == old(connectingStateStartTime)
      ensures nextWorker == old(nextWorker) && deactivationInProgress == old(deactivationInProgress)
    {
      AlwaysSafe();
      previousState := CONNECTING;
      start := connectingStateStartTime;
      caller := Comparing(now, start);
      Record(UpdateLock);
    }

    method CompareTimes(now: int, start: int) returns (stuck: bool)
      requires Valid() && caller == Comparing(now, Some(start))
      modifies this
      ensures Valid() && steps == old(steps) + [Compare]
      ensures stuck <==> now - start > CONNECTING_STATE_TIMEOUT
      ensures if stuck then caller.Triggering? else caller.Idle? && result.Activating?
      ensures connectingStateStartTime == old(connectingStateStartTime)
      ensures nextWorker == old(nextWorker) && deactivationInProgress == old(deactivationInProgress)
    {
      stuck := now - start > CONNECTING_STATE_TIMEOUT;
      if stuck {
        caller := Triggering;
      } else {
        caller, result := Idle, Activating;
      }
      Record(Compare);
    }

    method TryBeginDeactivation() returns (begun: bool)
      requires Valid() && caller.Triggering?
      modifies this
      ensures Valid() && steps == old(steps) + [TriggerLock]
      ensures begun <==> !old(deactivationInProgress)
      ensures deactivationInProgress
      ensures connectingStateStartTime == if begun then None else old(connectingStateStartTime)
      ensures if begun then caller.Launching? else caller.Idle? && result.Activating?
      ensures nextWorker == old(nextWorker)
    {
      if deactivationInProgress {
        begun, caller, result := false, Idle, Activating;
      } else {
        begun, deactivationInProgress, connectingStateStartTime, caller := true, true, None, Launching;
      }
      Record(TriggerLock);
    }

    method GoDeactivate()
      requires Valid() && caller.Launching?
      modifies this
      ensures Valid() && steps == old(steps) + [Launch]
      ensures caller.Idle? && result.ActivationFailed?
      ensures nextWorker == old(nextWorker) + 1
      ensures old(nextWorker) in workers && workers[old(nextWorker)].Started?
    {
      workers, nextWorker := workers[nextWorker := Started], nextWorker + 1;
      caller, result := Idle, ActivationFailed;
      Record(Launch);
    }

    /** triggerDeactivationAsync: one locked section, then the go statement. */
    method TriggerDeactivationAsync(gap: seq<Step>) returns (status: Status)
      requires Valid() && caller.Triggering?
      modifies this
      ensures Valid() && caller.Idle?
      ensures status == result && status == if old(deactivationInProgress) then Activating else ActivationFailed
      ensures nextWorker == old(nextWorker) + if status.ActivationFailed? then 1 else 0
    {
      hide IsRun, Next, Enabled;
      var begun := TryBeginDeactivation();
      if !begun {
        return Activating;
      }
      WorkersRun(gap);
      GoDeactivate();
      return ActivationFailed;
    }

    /** Whether "connecting" read now calls for a deactivation. */
    predicate MayDeactivate()
      reads this
    {
      match connectingStateStartTime
      case None => previousState != NOT_CONNECTED
      case Some(start) => clock - start > CONNECTING_STATE_TIMEOUT
    }

    /**
     handleConnectingState. The clock reading and each unlock are followed by whatever the
     workers do in the meantime; the stored start time is nevertheless there to be compared,
     and ACTIVATION_FAILED is returned exactly when this call started a worker. That never happens
     on a first "connecting" after "not connected", nor within three minutes of the stored time;
     with no deactivation under way it always happens otherwise.
     */
    method HandleConnectingState(gaps: seq<seq<Step>>) returns (status: Status)
      requires Valid() && caller.Idle? && |gaps| == 5
      modifies this
      ensures Valid() && caller.Idle? && status == result
      ensures status.ActivationFailed? || status.Activating?
      ensures nextWorker == old(nextWorker) + if status.ActivationFailed? then 1 else 0
      ensures !old(MayDeactivate()) ==>
                status.Activating?
                && connectingStateStartTime
                   == (if old(connectingStateStartTime).None? then Some(old(clock)) else old(connectingStateStartTime))
      ensures old(MayDeactivate() && !deactivationInProgress) ==> status.ActivationFailed?
    {
      hide IsRun, Next, Enabled;
      var now := ReadClock();
      WorkersRun(gaps[0]);
      var trigger := EnterConnecting(now);
      WorkersRun(gaps[1]);
      if !trigger {
        var start := UpdatePrevious(now);
        WorkersRun(gaps[2]);
        trigger := CompareTimes(now, start.value);
        if !trigger {
          return Activating;
        }
        WorkersRun(gaps[3]);
      }
      status := TriggerDeactivationAsync(gaps[4]);
    }

    /** The readings that need one locked section at most. */
    method RecordReading(status: string)
      requires Valid() && caller.Idle? && status != CONNECTING
      modifies this
      ensures Valid() && previousState == status && nextWorker == old(nextWorker)
      ensures caller == if status == NOT_CONNECTED then RunningActivation else Idle
      ensures deactivationInProgress == old(deactivationInProgress)
      ensures connectingStateStartTime
           == if status in {NOT_CONNECTED, CONNECTED} then None else old(connectingStateStartTime)
    {
      previousState := status;
      if status == NOT_CONNECTED {
        connectingStateStartTime, caller := None, RunningActivation;
        Record(ReadNotConnected);
      } else if status == CONNECTED {
        connectingStateStartTime := None;
        Record(ReadConnected);
      } else {
        Record(ReadOther(status));
      }
    }

    method EndActivation(authenticationFailed: bool)
      requires Valid() && caller.RunningActivation?
      modifies this
      ensures Valid() && caller == if authenticationFailed then Triggering else Idle
      ensures nextWorker == old(nextWorker) && deactivationInProgress == old(deactivationInProgress)
    {
      caller := if authenticationFailed then Triggering else Idle;
      Record(ActivationEnds(authenticationFailed));
    }

    /**
     RetrieveActivationDetails once activation is requested: the normalized RAS status (None when it
     cannot be read) decides. A worker is only ever started for a device that is connecting, or
     whose activation failed to authenticate.
     */
    method RetrieveActivationDetails(rasStatus: Option<string>, authenticationFailed: bool, provisioned: bool,
                                     gaps: seq<seq<Step>>)
      returns (status: Status)
      requires Valid() && caller.Idle? && |gaps| == 5
      modifies this
      ensures Valid() && caller.Idle?
      ensures old(nextWorker) <= nextWorker <= old(nextWorker) + 1
      ensures nextWorker > old(nextWorker) ==>
                rasStatus == Some(CONNECTING) || (rasStatus == Some(NOT_CONNECTED) && authenticationFailed)
      ensures rasStatus == Some(NOT_CONNECTED) && authenticationFailed && !old(deactivationInProgress) ==>
                nextWorker > old(nextWorker)
      ensures match rasStatus
              case None => status.ActivationFailed?
              case Some(ras) =>
                if ras == NOT_CONNECTED then status == if provisioned then Activating else ActivationFailed
                else if ras == CONNECTING then
                  status == if nextWorker == old(nextWorker) + 1 then ActivationFailed else Activating
                else previousState == ras && status == if ras == CONNECTED then Activated else Unspecified
    {
      hide IsRun, Next, Enabled;
      if rasStatus.None? {
        return ActivationFailed;
      }
      if rasStatus.value == CONNECTING {
        status := HandleConnectingState(gaps);
        return;
      }
      RecordReading(rasStatus.value);
      if rasStatus.value == NOT_CONNECTED {
        WorkersRun(gaps[0]);
        EndActivation(authenticationFailed);
        if authenticationFailed {
          WorkersRun(gaps[1]);
          var _ := TriggerDeactivationAsync(gaps[2]);
        }
        return if provisioned then Activating else ActivationFailed;
      }
      return if rasStatus.value == CONNECTED then Activated else Unspecified;
    }

    // ----- The sections of a worker -----

    method RunCommand(id: nat, succeeded: bool)
      requires Valid() && id in workers && workers[id].Started?
      modifies this
      ensures Valid() && steps == old(steps) + [WorkerCommand(id, succeeded)]
      ensures id in workers && workers[id] == if succeeded then Waiting(clock, 0, clock) else Exiting
    {
      workers := workers[id := if succeeded then Waiting(clock, 0, clock) else Exiting];
      Record(WorkerCommand(id, succeeded));
    }

    method CheckElapsed(id: nat) returns (expired: bool)
      requires Valid() && id in workers && workers[id].Waiting? && workers[id].wake <= clock
      modifies this
      ensures Valid() && steps == old(steps) + [WorkerCheck(id)]
      ensures expired <==> clock - old(workers[id].start) > POLL_TIMEOUT
      ensures id in workers
      ensures workers[id] == if expired then Exiting
                             else Reading(old(workers[id].start), old(workers[id].polls) + 1)
      ensures !expired ==> old(workers[id].polls) < MAX_POLLS
    {
      var w := workers[id];
      expired := clock - w.start > POLL_TIMEOUT;
      workers := workers[id := if expired then Exiting else Reading(w.start, w.polls + 1)];
      Record(WorkerCheck(id));
      AlwaysSafe();
    }

    method ReadAmtInfo(id: nat, reading: Option<string>) returns (disconnected: bool)
      requires Valid() && id in workers && workers[id].Reading?
      modifies this
      ensures Valid() && steps == old(steps) + [WorkerInfo(id, reading)]
      ensures disconnected <==> reading == Some(NOT_CONNECTED)
      ensures id in workers
      ensures workers[id] == if disconnected then Confirming
                             else Waiting(old(workers[id].start), old(workers[id].polls), clock + POLL_INTERVAL)
    {
      var w := workers[id];
      disconnected := reading == Some(NOT_CONNECTED);
      workers := workers[id := if disconnected then Confirming
                               else Waiting(w.start, w.polls, clock + POLL_INTERVAL)];
      Record(WorkerInfo(id, reading));
    }

    method ConfirmDisconnected(id: nat)
      requires Valid() && id in workers && workers[id].Confirming?
      modifies this
      ensures Valid() && steps == old(steps) + [WorkerConfirm(id)]
      ensures previousState == NOT_CONNECTED && id in workers && workers[id].Exiting?
    {
      previousState := NOT_CONNECTED;
      workers := workers[id := Exiting];
      Record(WorkerConfirm(id));
    }

    /** time.Sleep: others run, and the clock has passed the wake-up time when it returns. */
    method Sleep(id: nat, schedule: seq<Step>)
      requires Valid() && id in workers && workers[id].Waiting?
      modifies this
      ensures Valid()
      ensures WorkerConfirm(id) in steps <==> WorkerConfirm(id) in old(steps)
      ensures id in workers && workers[id] == old(workers[id]) && workers[id].wake <= clock
    {
      OthersRun(id, schedule);
      if clock < workers[id].wake {
        Other(Tick(workers[id].wake - clock));
      }
    }

    /** The deferred section of a worker: clear the flag and end. */
    method Finish(id: nat)
      requires Valid() && id in workers && workers[id].Exiting?
      modifies this
      ensures Valid() && steps == old(steps) + [WorkerFinish(id)]
      ensures workers == map[] && !deactivationInProgress
    {
      AlwaysSafe();
      deactivationInProgress, workers := false, workers - {id};
      Record(WorkerFinish(id));
      AlwaysSafe();
    }

    /** One turn of the poll loop, the sleep of the turn before included. */
    method PollOnce(id: nat, reading: Option<string>, gaps: seq<seq<Step>>) returns (expired: bool, disconnected: bool)
      requires Valid() && id in workers && workers[id].Waiting? && |gaps| == 3
      requires WorkerConfirm(id) !in steps
      modifies this
      ensures Valid() && id in workers
      ensures expired ==> !disconnected && workers[id].Exiting?
      ensures !expired ==> old(workers[id].polls) < MAX_POLLS && (disconnected <==> reading == Some(NOT_CONNECTED))
      ensures disconnected ==> workers[id].Exiting?
      ensures !expired && !disconnected ==> workers[id].Waiting? && workers[id].polls == old(workers[id].polls) + 1
      ensures WorkerConfirm(id) in steps <==> disconnected
    {
      hide IsRun, Next, Enabled, Safe;
      disconnected := false;
      Sleep(id, gaps[0]);
      expired := CheckElapsed(id);
      if !expired {
        OthersRun(id, gaps[1]);
        disconnected := ReadAmtInfo(id, reading);
        if disconnected {
          OthersRun(id, gaps[2]);
          ConfirmDisconnected(id);
        }
      }
    }

    /** The poll loop: it ends because the time is up or a poll read "not connected". */
    method Poll(id: nat, amtInfo: nat -> Option<string>, gap: nat -> seq<Step>) returns (polls: nat)
      requires Valid() && id in workers && workers[id].Waiting? && workers[id].polls == 0
      requires WorkerConfirm(id) !in steps
      modifies this
      ensures Valid() && id in workers && workers[id].Exiting? && polls <= MAX_POLLS
      ensures WorkerConfirm(id) in steps <==> exists k :: 0 <= k < polls && amtInfo(k) == Some(NOT_CONNECTED)
    {
      hide IsRun, Next, Enabled, Safe;
      polls := 0;
      var expired, disconnected := false, false;
      while !expired && !disconnected
        invariant Valid() && id in workers && polls <= MAX_POLLS
        invariant expired || disconnected ==> workers[id].Exiting?
        invariant !expired && !disconnected ==> workers[id].Waiting? && workers[id].polls == polls
        invariant WorkerConfirm(id) in steps <==> disconnected
        invariant disconnected <==> exists k :: 0 <= k < polls && amtInfo(k) == Some(NOT_CONNECTED)
        decreases !expired, MAX_POLLS - polls
      {
        var gaps := [gap(3 * polls + 1), gap(3 * polls + 2), gap(3 * polls + 3)];
        expired, disconnected := PollOnce(id, amtInfo(polls), gaps);
        if !expired {
          polls := polls + 1;
        }
      }
    }

    /**
     performDeactivationAsync, run by worker id against an arbitrary schedule of the other
     threads: it ends, with the flag cleared and after at most seven polls, and it reports
     "not connected" exactly when the command succeeded and one of its polls read that.
     */
    method PerformDeactivationAsync(id: nat, commandSucceeds: bool, amtInfo: nat -> Option<string>,
                                    gap: nat -> seq<Step>)
      returns (polls: nat)
      requires Valid() && id in workers && workers[id].Started?
      modifies this
      ensures Valid() && id !in workers && !deactivationInProgress
      ensures polls <= MAX_POLLS
      ensures WorkerConfirm(id) in steps
              <==> commandSucceeds && exists k :: 0 <= k < polls && amtInfo(k) == Some(NOT_CONNECTED)
    {
      NotConfirmedYet(id);
      hide IsRun, Next, Enabled, Safe;
      OthersRun(id, gap(0));
      RunCommand(id, commandSucceeds);
      polls := 0;
      if commandSucceeds {
        polls := Poll(id, amtInfo, gap);
      }
      OthersRun(id, gap(3 * polls + 4));
      Finish(id);
    }
  }
}
