/**
 Downloads and updates of the platform update agent as one interleaved system: timer
 callbacks, scheduled update jobs and the main loop run concurrently, share the operation
 lock and the metadata file, and the process may restart at any moment.
 */
module PuaInterleaving {
  import opened Wrappers
  import opened PuaDownloader

  /** What the metadata file says about images; it survives restarts. */
  datatype Meta = Meta(desired: Option<Source>, kernelCommand: string)

  /** Where a concurrent thread of the agent stands. */
  datatype Thread =
    // a timer callback
    | Fired(source: Option<Source>)
    | DownloadLocked(source: Option<Source>)
    | Downloading(source: Option<Source>)
    | Downloaded(source: Option<Source>)
    | EndingDownload(publish: Option<Source>)
    | Publishing(image: Source)
    // an update; scheduled ones take the operation lock, the one continued at boot does not
    | Triggered(end: int)
    | UpdateLocked(end: int)
    | Updating(scheduled: bool)
    | ReadyToCheck(scheduled: bool)
    | Checking(last: Option<Source>, scheduled: bool)
    | Approved(desired: Option<Source>, scheduled: bool)
    | AfterImage(scheduled: bool)
    | EndingUpdate

  datatype State = State(
    clock: int,
    booting: bool,
    meta: Meta,
    timers: Schedule,
    lock: Option<nat>,
    updateMutex: Option<nat>,
    lastDownloaded: Option<Source>,
    threads: map<nat, Thread>,
    nextThread: nat,
    completed: set<string>)

  datatype Step =
    | Tick(elapsed: nat)
    | Notified(draw: nat, source: Option<Source>, nextRunTime: Option<int>, booted: Option<Source>)
    | DesiredReceived(image: Option<Source>)
    | KernelCommandReceived(command: string)
    | TimerFired(timer: nat)
    | DownloadTriesLock(id: nat)
    | DownloadStatusWritten(id: nat, ok: bool)
    | DownloadReturned(id: nat, ok: bool)
    | DownloadRecorded(id: nat, ok: bool)
    | DownloadUnlocks(id: nat)
    | DownloadPublished(id: nat)
    | JobTriggered(end: int)
    | UpdateTakesLock(id: nat)
    | UpdateStarts(id: nat)
    | UpdateAborted(id: nat)
    | KernelChecked(id: nat, ok: bool)
    | LastDownloadedRead(id: nat)
    | DesiredRead(id: nat, ok: bool)
    | ImageUpdateExecuted(id: nat)
    | UpdateEnds(id: nat)
    | UpdateUnlocks(id: nat)
    | BootContinues
    | BootEnds
    | Restarted

  predicate At(s: State, id: nat, holds: Thread -> bool) {
    id in s.threads && holds(s.threads[id])
  }

  predicate Enabled(s: State, step: Step) {
    match step
    case Tick(_) => true
    case Notified(_, _, _, _) => !s.booting
    case DesiredReceived(_) => !s.booting
    case KernelCommandReceived(_) => !s.booting
    case TimerFired(timer) => timer in s.timers.armed && s.timers.armed[timer].target <= s.clock
    case DownloadTriesLock(id) => At(s, id, (t: Thread) => t.Fired?)
    case DownloadStatusWritten(id, _) => At(s, id, (t: Thread) => t.DownloadLocked?)
    case DownloadReturned(id, _) => At(s, id, (t: Thread) => t.Downloading?)
    case DownloadRecorded(id, _) => At(s, id, (t: Thread) => t.Downloaded?)
    case DownloadUnlocks(id) => At(s, id, (t: Thread) => t.EndingDownload?)
    case DownloadPublished(id) => At(s, id, (t: Thread) => t.Publishing?)
    case JobTriggered(_) => !s.booting
    case UpdateTakesLock(id) => At(s, id, (t: Thread) => t.Triggered?) && s.lock.None?
    case UpdateStarts(id) => At(s, id, (t: Thread) => t.UpdateLocked?)
    case UpdateAborted(id) =>
      At(s, id, (t: Thread) => t.Updating? || t.ReadyToCheck? || t.Checking? || t.Approved? || t.AfterImage?)
    case KernelChecked(id, _) => At(s, id, (t: Thread) => t.Updating?)
    case LastDownloadedRead(id) => At(s, id, (t: Thread) => t.ReadyToCheck?)
    case DesiredRead(id, _) => At(s, id, (t: Thread) => t.Checking?)
    case ImageUpdateExecuted(id) => At(s, id, (t: Thread) => t.Approved?)
    case UpdateEnds(id) => At(s, id, (t: Thread) => t.AfterImage?)
    case UpdateUnlocks(id) => At(s, id, (t: Thread) => t.EndingUpdate?)
    case BootContinues => s.booting && s.threads == map[]
    case BootEnds => s.booting && s.threads == map[]
    case Restarted => true
  }

  function Move(s: State, id: nat, t: Thread): State {
    s.(threads := s.threads[id := t])
  }

  function Spawn(s: State, t: Thread): State {
    s.(threads := s.threads[s.nextThread := t], nextThread := s.nextThread + 1)
  }

  function End(s: State, id: nat): State {
    s.(threads := s.threads - {id})
  }

  /** An update returns: a scheduled one still holds the operation lock, a continued one is over. */
  function LeaveUpdate(s: State, id: nat, scheduled: bool): State {
    if scheduled then Move(s.(updateMutex := None), id, EndingUpdate) else End(s, id)
  }

  function Next(w: Windows, s: State, step: Step): State
    requires Enabled(s, step)
  {
    match step
    case Tick(elapsed) => s.(clock := s.clock + elapsed)
    case Notified(draw, source, nextRunTime, booted) =>
      s.(timers := AfterCall(w, s.timers, Notify(s.clock, draw, source, nextRunTime, booted)))
    case DesiredReceived(image) => s.(meta := s.meta.(desired := image))
    case KernelCommandReceived(command) => s.(meta := s.meta.(kernelCommand := command))
    case TimerFired(timer) =>
      Spawn(s.(timers := AfterCall(w, s.timers, Fire(timer))), Fired(s.timers.armed[timer].source))
    case DownloadTriesLock(id) =>
      if s.lock.None? then Move(s.(lock := Some(id)), id, DownloadLocked(s.threads[id].source)) else End(s, id)
    case DownloadStatusWritten(id, ok) =>
      Move(s, id, if ok then Downloading(s.threads[id].source) else EndingDownload(None))
    case DownloadReturned(id, ok) =>
      var source := s.threads[id].source;
      if ok then
        Move(s.(completed := s.completed + (if source.Some? then {source.value.imageSha} else {})), id, Downloaded(source))
      else Move(s, id, EndingDownload(None))
    case DownloadRecorded(id, ok) => Move(s, id, EndingDownload(if ok then s.threads[id].source else None))
    case DownloadUnlocks(id) =>
      var unlocked := s.(lock := None);
      (match s.threads[id].publish
       case None => End(unlocked, id)
       case Some(source) => Move(unlocked, id, Publishing(source)))
    case DownloadPublished(id) => End(s.(lastDownloaded := Some(s.threads[id].image)), id)
    case JobTriggered(end) => Spawn(s, Triggered(end))
    case UpdateTakesLock(id) => Move(s.(lock := Some(id)), id, UpdateLocked(s.threads[id].end))
    case UpdateStarts(id) =>
      if s.clock < s.threads[id].end && s.updateMutex.None? then Move(s.(updateMutex := Some(id)), id, Updating(true))
      else Move(s, id, EndingUpdate)
    case UpdateAborted(id) => LeaveUpdate(s, id, s.threads[id].scheduled)
    case KernelChecked(id, ok) =>
      var scheduled := s.threads[id].scheduled;
      Move(s, id, if ok && s.meta.kernelCommand != "" then AfterImage(scheduled) else ReadyToCheck(scheduled))
    case LastDownloadedRead(id) => Move(s, id, Checking(s.lastDownloaded, s.threads[id].scheduled))
    case DesiredRead(id, ok) =>
      var (last, scheduled) := (s.threads[id].last, s.threads[id].scheduled);
      if ok && AreOsImagesEqual(last, s.meta.desired) then Move(s, id, Approved(s.meta.desired, scheduled))
      else LeaveUpdate(s, id, scheduled)
    case ImageUpdateExecuted(id) => Move(s, id, AfterImage(s.threads[id].scheduled))
    case UpdateEnds(id) => LeaveUpdate(s, id, s.threads[id].scheduled)
    case UpdateUnlocks(id) => End(s.(lock := None), id)
    case BootContinues => Spawn(s, Updating(false))
    case BootEnds => s.(booting := false)
    case Restarted => Fresh(s.clock, s.meta)
  }

  /** A newly started process: only the clock and the metadata file carry over. */
  function Fresh(clock: int, meta: Meta): State {
    State(clock, true, meta, UNSCHEDULED, None, None, None, map[], 0, {})
  }

  ghost predicate IsRun(w: Windows, trace: seq<State>, steps: seq<Step>) {
    && |trace| == |steps| + 1
    && trace[0] == Fresh(trace[0].clock, trace[0].meta)
    && forall i :: 0 <= i < |steps| ==> Enabled(trace[i], steps[i]) && trace[i + 1] == Next(w, trace[i], steps[i])
  }

  // ----- Invariant -----

  /** Between taking the operation lock and releasing it. */
  predicate InLock(t: Thread) {
    match t
    case DownloadLocked(_) => true
    case Downloading(_) => true
    case Downloaded(_) => true
    case EndingDownload(_) => true
    case UpdateLocked(_) => true
    case EndingUpdate => true
    case _ => IsUpdating(t) && t.scheduled
  }

  predicate IsDownloading(t: Thread) {
    t.DownloadLocked? || t.Downloading? || t.Downloaded? || t.EndingDownload?
  }

  predicate IsUpdating(t: Thread) {
    t.Updating? || t.ReadyToCheck? || t.Checking? || t.Approved? || t.AfterImage?
  }

  /** Every image a thread has vouched for was downloaded completely in this process. */
  predicate Vouched(t: Thread, completed: set<string>) {
    match t
    case Downloaded(source) => source.Some? ==> source.value.imageSha in completed
    case EndingDownload(publish) => publish.Some? ==> publish.value.imageSha in completed
    case Publishing(image) => image.imageSha in completed
    case Checking(last, _) => last.Some? ==> last.value.imageSha in completed
    case Approved(desired, _) => desired.Some? ==> desired.value.imageSha in completed
    case _ => true
  }

  /** What every live thread satisfies, given the lock, the boot flag and the completed images. */
  predicate ThreadSound(id: nat, t: Thread, lock: Option<nat>, booting: bool, completed: set<string>) {
    && (InLock(t) <==> lock == Some(id))
    && Vouched(t, completed)
    && (booting ==> IsUpdating(t) && !t.scheduled)
    && (!booting && IsUpdating(t) ==> t.scheduled)
  }

  ghost predicate Inv(s: State) {
    && (forall id :: id in s.threads ==>
          id < s.nextThread && ThreadSound(id, s.threads[id], s.lock, s.booting, s.completed))
    && (s.lock.Some? ==> s.lock.value in s.threads)
    && (s.booting ==> s.timers.armed == map[])
    && (s.lastDownloaded.Some? ==> s.lastDownloaded.value.imageSha in s.completed)
  }

  predicate IsDownloadStep(step: Step) {
    || step.TimerFired? || step.DownloadTriesLock? || step.DownloadStatusWritten? || step.DownloadReturned?
    || step.DownloadRecorded? || step.DownloadUnlocks? || step.DownloadPublished?
  }

  lemma DownloadStepKeepsInv(w: Windows, s: State, step: Step)
    requires Inv(s) && Enabled(s, step) && IsDownloadStep(step)
    ensures Inv(Next(w, s, step))
  {
    var t := Next(w, s, step);
    forall id | id in t.threads
      ensures id < t.nextThread && ThreadSound(id, t.threads[id], t.lock, t.booting, t.completed)
    {
      assert id in s.threads ==> ThreadSound(id, s.threads[id], s.lock, s.booting, s.completed);
    }
  }

  /** The steps of an update that take or release a lock. */
  predicate IsLockStep(step: Step) {
    step.UpdateTakesLock? || step.UpdateStarts? || step.UpdateAborted? || step.UpdateEnds? || step.UpdateUnlocks?
  }

  /** The steps of an update on its way to the image command, except for the check itself. */
  predicate IsCheckStep(step: Step) {
    step.KernelChecked? || step.LastDownloadedRead? || step.ImageUpdateExecuted?
  }

  lemma LockStepKeepsInv(w: Windows, s: State, step: Step)
    requires Inv(s) && Enabled(s, step) && IsLockStep(step)
    ensures Inv(Next(w, s, step))
  {
    var t := Next(w, s, step);
    forall id | id in t.threads
      ensures id < t.nextThread && ThreadSound(id, t.threads[id], t.lock, t.booting, t.completed)
    {
      assert id in s.threads ==> ThreadSound(id, s.threads[id], s.lock, s.booting, s.completed);
    }
  }

  lemma CheckStepKeepsInv(w: Windows, s: State, step: Step)
    requires Inv(s) && Enabled(s, step) && IsCheckStep(step)
    ensures Inv(Next(w, s, step))
  {
    var t := Next(w, s, step);
    forall id | id in t.threads
      ensures id < t.nextThread && ThreadSound(id, t.threads[id], t.lock, t.booting, t.completed)
    {
      assert id in s.threads ==> ThreadSound(id, s.threads[id], s.lock, s.booting, s.completed);
    }
  }

  lemma DesiredReadKeepsInv(w: Windows, s: State, step: Step)
    requires Inv(s) && Enabled(s, step) && step.DesiredRead?
    ensures Inv(Next(w, s, step))
  {
    var t := Next(w, s, step);
    forall id | id in t.threads
      ensures id < t.nextThread && ThreadSound(id, t.threads[id], t.lock, t.booting, t.completed)
    {
      assert id in s.threads ==> ThreadSound(id, s.threads[id], s.lock, s.booting, s.completed);
    }
  }

  lemma OtherStepKeepsInv(w: Windows, s: State, step: Step)
    requires Inv(s) && Enabled(s, step) && !IsDownloadStep(step) && !IsLockStep(step) && !IsCheckStep(step)
    requires !step.DesiredRead?
    ensures Inv(Next(w, s, step))
  {
    var t := Next(w, s, step);
    forall id | id in t.threads
      ensures id < t.nextThread && ThreadSound(id, t.threads[id], t.lock, t.booting, t.completed)
    {
      assert id in s.threads ==> ThreadSound(id, s.threads[id], s.lock, s.booting, s.completed);
    }
  }

  lemma InvStep(w: Windows, s: State, step: Step)
    requires Inv(s) && Enabled(s, step)
    ensures Inv(Next(w, s, step))
  {
    if IsDownloadStep(step) {
      DownloadStepKeepsInv(w, s, step);
    } else if IsLockStep(step) {
      LockStepKeepsInv(w, s, step);
    } else if IsCheckStep(step) {
      CheckStepKeepsInv(w, s, step);
    } else if step.DesiredRead? {
      DesiredReadKeepsInv(w, s, step);
    } else {
      OtherStepKeepsInv(w, s, step);
    }
  }

  lemma {:induction false} EveryRunKeepsInv(w: Windows, trace: seq<State>, steps: seq<Step>, i: nat)
    requires IsRun(w, trace, steps) && i < |trace|
    ensures Inv(trace[i])
  {
    if i > 0 {
      EveryRunKeepsInv(w, trace, steps, i - 1);
      InvStep(w, trace[i - 1], steps[i - 1]);
    }
  }

  // ----- Main results -----

  /** A download never overlaps an update or another download, in any interleaving. */
  lemma DownloadsAndUpdatesExclude(w: Windows, trace: seq<State>, steps: seq<Step>, i: nat, a: nat, b: nat)
    requires IsRun(w, trace, steps) && i < |trace|
    requires a != b && a in trace[i].threads && b in trace[i].threads
    requires IsDownloading(trace[i].threads[a])
    ensures !IsDownloading(trace[i].threads[b]) && !IsUpdating(trace[i].threads[b])
  {
    EveryRunKeepsInv(w, trace, steps, i);
  }

  predicate NoRestart(steps: seq<Step>, from: nat, to: nat)
    requires to <= |steps|
  {
    forall k :: from < k < to ==> !steps[k].Restarted?
  }

  /** The step is the error-free return of a download of an image with this SHA. */
  predicate IsDownloadOf(s: State, step: Step, sha: string) {
    && step.DownloadReturned? && step.ok
    && step.id in s.threads && s.threads[step.id].Downloading?
    && s.threads[step.id].source.Some? && s.threads[step.id].source.value.imageSha == sha
  }

  /** A download of the SHA returned without error before i, and no restart came between. */
  ghost predicate DownloadedSince(trace: seq<State>, steps: seq<Step>, i: nat, sha: string)
    requires i < |trace| == |steps| + 1
  {
    exists j :: 0 <= j < i && IsDownloadOf(trace[j], steps[j], sha) && NoRestart(steps, j, i)
  }

  /** An image enters the completed set only when its own download returns without error. */
  lemma CompletedStep(w: Windows, s: State, step: Step, sha: string)
    requires Enabled(s, step) && sha in Next(w, s, step).completed
    ensures !step.Restarted?
    ensures sha in s.completed || IsDownloadOf(s, step, sha)
  {
  }

  lemma {:induction false} CompletedWereDownloaded(w: Windows, trace: seq<State>, steps: seq<Step>, i: nat, sha: string)
    requires IsRun(w, trace, steps) && i < |trace| && sha in trace[i].completed
    ensures DownloadedSince(trace, steps, i, sha)
  {
    if i > 0 {
      CompletedStep(w, trace[i - 1], steps[i - 1], sha);
      hide Next, Enabled;
      if IsDownloadOf(trace[i - 1], steps[i - 1], sha) {
        assert NoRestart(steps, i - 1, i);
      } else {
        CompletedWereDownloaded(w, trace, steps, i - 1, sha);
        var j :| 0 <= j < i - 1 && IsDownloadOf(trace[j], steps[j], sha) && NoRestart(steps, j, i - 1);
        assert NoRestart(steps, j, i);
      }
    }
  }

  /** The metadata desired this image when the update read it for its check, in this process. */
  ghost predicate DesiredWhenChecked(trace: seq<State>, steps: seq<Step>, i: nat, id: nat, desired: Option<Source>)
    requires i < |trace| == |steps| + 1
  {
    exists c :: 0 <= c < i && steps[c] == DesiredRead(id, true) && trace[c].meta.desired == desired
                && NoRestart(steps, c, i)
  }

  lemma ApprovedStep(w: Windows, s: State, step: Step, id: nat)
    requires Enabled(s, step) && id in Next(w, s, step).threads && Next(w, s, step).threads[id].Approved?
    ensures !step.Restarted?
    ensures || (step == DesiredRead(id, true) && s.meta.desired == Next(w, s, step).threads[id].desired)
            || (id in s.threads && s.threads[id] == Next(w, s, step).threads[id])
  {
  }

  lemma {:induction false} ApprovedWereDesired(w: Windows, trace: seq<State>, steps: seq<Step>, i: nat, id: nat)
    requires IsRun(w, trace, steps) && i < |trace|
    requires id in trace[i].threads && trace[i].threads[id].Approved?
    ensures DesiredWhenChecked(trace, steps, i, id, trace[i].threads[id].desired)
  {
    if i > 0 {
      ApprovedStep(w, trace[i - 1], steps[i - 1], id);
      hide Next, Enabled;
      var desired := trace[i].threads[id].desired;
      if steps[i - 1] == DesiredRead(id, true) && trace[i - 1].meta.desired == desired {
        assert NoRestart(steps, i - 1, i);
      } else {
        ApprovedWereDesired(w, trace, steps, i - 1, id);
        var c :| 0 <= c < i - 1 && steps[c] == DesiredRead(id, true) && trace[c].meta.desired == desired
                 && NoRestart(steps, c, i - 1);
        assert NoRestart(steps, c, i);
      }
    }
  }

  /**
   Whenever the image update command runs for a non-nil image, that image was the desired one
   when the update checked, and an image with its SHA was downloaded completely before the
   command, in the same process.
   */
  lemma UpdatesOnlyDownloadedImages(w: Windows, trace: seq<State>, steps: seq<Step>, i: nat)
    requires IsRun(w, trace, steps) && i < |steps|
    requires steps[i].ImageUpdateExecuted? && trace[i].threads[steps[i].id].desired.Some?
    ensures var desired := trace[i].threads[steps[i].id].desired;
            && DesiredWhenChecked(trace, steps, i, steps[i].id, desired)
            && DownloadedSince(trace, steps, i, desired.value.imageSha)
  {
    var id := steps[i].id;
    EveryRunKeepsInv(w, trace, steps, i);
    ApprovedWereDesired(w, trace, steps, i, id);
    CompletedWereDownloaded(w, trace, steps, i, trace[i].threads[id].desired.value.imageSha);
  }

  // ----- Scheduled updates start exactly inside their window -----

  /** Step j happened before i in the same process. */
  predicate Earlier(steps: seq<Step>, j: int, i: nat)
    requires i <= |steps|
  {
    0 <= j < i && NoRestart(steps, j, i)
  }

  lemma EarlierLaws(steps: seq<Step>, before: nat, i: nat)
    requires i == before + 1 <= |steps|
    ensures Earlier(steps, before, i)
    ensures !steps[before].Restarted? ==> forall j :: j != before ==> (Earlier(steps, j, i) <==> Earlier(steps, j, before))
  {
  }

  /** Thread id was started at step j by a job whose window ends at end. */
  predicate IsJob(s: State, step: Step, id: nat, end: int) {
    step == JobTriggered(end) && s.nextThread == id
  }

  /** An update that waits for the lock, or has just got it, was started by a job with its window. */
  ghost predicate HasJob(trace: seq<State>, steps: seq<Step>, i: nat, id: nat, end: int)
    requires i < |trace| == |steps| + 1
  {
    exists j :: Earlier(steps, j, i) && IsJob(trace[j], steps[j], id, end)
  }

  predicate AwaitsStart(s: State, id: nat, end: int) {
    id in s.threads && s.threads[id] in {Triggered(end), UpdateLocked(end)}
  }

  lemma AwaitingStep(w: Windows, s: State, step: Step, id: nat, end: int)
    requires Enabled(s, step) && AwaitsStart(Next(w, s, step), id, end)
    ensures !step.Restarted? && (IsJob(s, step, id, end) || AwaitsStart(s, id, end))
  {
  }

  lemma {:induction false} AwaitingHasJob(w: Windows, trace: seq<State>, steps: seq<Step>, i: nat, id: nat, end: int)
    requires IsRun(w, trace, steps) && i < |trace| && AwaitsStart(trace[i], id, end)
    ensures HasJob(trace, steps, i, id, end)
  {
    if i > 0 {
      var before := i - 1;
      EarlierLaws(steps, before, i);
      AwaitingStep(w, trace[before], steps[before], id, end);
      hide Earlier, Next, Enabled, AwaitsStart, IsJob;
      if !IsJob(trace[before], steps[before], id, end) {
        AwaitingHasJob(w, trace, steps, before, id, end);
        var j :| Earlier(steps, j, before) && IsJob(trace[j], steps[j], id, end);
      }
    }
  }

  /** The update mutex is only ever held by the update that holds the operation lock. */
  ghost predicate MutexInLock(s: State) {
    s.updateMutex.Some? ==>
      s.lock == s.updateMutex && s.lock.value in s.threads && IsUpdating(s.threads[s.lock.value])
  }

  lemma MutexLockStep(w: Windows, s: State, step: Step)
    requires Inv(s) && MutexInLock(s) && Enabled(s, step) && IsLockStep(step)
    ensures MutexInLock(Next(w, s, step))
  {
  }

  lemma MutexOtherStep(w: Windows, s: State, step: Step)
    requires Inv(s) && MutexInLock(s) && Enabled(s, step) && !IsLockStep(step)
    ensures MutexInLock(Next(w, s, step))
  {
  }

  lemma {:induction false} MutexStaysInLock(w: Windows, trace: seq<State>, steps: seq<Step>, i: nat)
    requires IsRun(w, trace, steps) && i < |trace|
    ensures MutexInLock(trace[i])
  {
    if i > 0 {
      MutexStaysInLock(w, trace, steps, i - 1);
      EveryRunKeepsInv(w, trace, steps, i - 1);
      if IsLockStep(steps[i - 1]) {
        MutexLockStep(w, trace[i - 1], steps[i - 1]);
      } else {
        MutexOtherStep(w, trace[i - 1], steps[i - 1]);
      }
    }
  }

  /**
   A scheduled update that has got the operation lock starts if and only if the window of the job
   that triggered it has not ended by then; the mutex of StartUpdate never stands in its way.
   */
  lemma UpdatesStartExactlyInTheirWindow(w: Windows, trace: seq<State>, steps: seq<Step>, i: nat)
    requires IsRun(w, trace, steps) && i < |steps| && steps[i].UpdateStarts?
    ensures exists end :: HasJob(trace, steps, i, steps[i].id, end)
                          && (steps[i].id in trace[i + 1].threads)
                          && (trace[i + 1].threads[steps[i].id] == Updating(true) <==> trace[i].clock < end)
                          && (trace[i + 1].threads[steps[i].id] == EndingUpdate <==> trace[i].clock >= end)
  {
    var id := steps[i].id;
    var end := trace[i].threads[id].end;
    AwaitingHasJob(w, trace, steps, i, id, end);
    EveryRunKeepsInv(w, trace, steps, i);
    MutexStaysInLock(w, trace, steps, i);
    hide HasJob;
  }

  /** No scheduled update begins in any other way. */
  lemma ScheduledUpdatesBeginSo(w: Windows, s: State, step: Step, id: nat)
    requires Enabled(s, step) && id in Next(w, s, step).threads && Next(w, s, step).threads[id] == Updating(true)
    ensures step == UpdateStarts(id) || (id in s.threads && s.threads[id] == Updating(true))
  {
  }

  // ----- What the record says, and for how long -----

  /** The last image and kernel command received, over those on record before; a restart loses nothing. */
  function Received(before: Meta, steps: seq<Step>): Meta {
    if steps == [] then before
    else
      var meta := Received(before, steps[..|steps| - 1]);
      match steps[|steps| - 1]
      case DesiredReceived(image) => Meta(image, meta.kernelCommand)
      case KernelCommandReceived(command) => Meta(meta.desired, command)
      case _ => meta
  }

  function Elapsed(steps: seq<Step>): nat {
    if steps == [] then 0
    else Elapsed(steps[..|steps| - 1]) + (if steps[|steps| - 1].Tick? then steps[|steps| - 1].elapsed else 0)
  }

  /** The process has not got past its boot since it was last started. */
  predicate StillBoots(steps: seq<Step>) {
    steps == [] || steps[|steps| - 1].Restarted? || (!steps[|steps| - 1].BootEnds? && StillBoots(steps[..|steps| - 1]))
  }

  lemma RecordStep(w: Windows, s: State, step: Step)
    requires Enabled(s, step)
    ensures Next(w, s, step).meta == match step
              case DesiredReceived(image) => Meta(image, s.meta.kernelCommand)
              case KernelCommandReceived(command) => Meta(s.meta.desired, command)
              case _ => s.meta
    ensures Next(w, s, step).clock == s.clock + (if step.Tick? then step.elapsed else 0)
    ensures Next(w, s, step).booting <==> step.Restarted? || (!step.BootEnds? && s.booting)
  {
    hide AfterCall, AreOsImagesEqual;
  }

  lemma {:induction false} RunsRecordWhatTheyReceive(w: Windows, trace: seq<State>, steps: seq<Step>, i: nat)
    requires IsRun(w, trace, steps) && i < |trace|
    ensures trace[i].meta == Received(trace[0].meta, steps[..i])
    ensures trace[i].clock == trace[0].clock + Elapsed(steps[..i])
    ensures trace[i].booting <==> StillBoots(steps[..i])
  {
    if i > 0 {
      var before := i - 1;
      RunsRecordWhatTheyReceive(w, trace, steps, before);
      assert steps[..i][..before] == steps[..before];
      RecordStep(w, trace[before], steps[before]);
      hide Next, Enabled, Fresh;
    }
  }

  // ----- What the image command waits for, and that it then runs -----

  /** The update's look at the kernel command: it goes on to the image unless it saw one. */
  predicate SawNoKernelCommand(s: State, step: Step, id: nat) {
    step.KernelChecked? && step.id == id && !(step.ok && s.meta.kernelCommand != "")
  }

  predicate PastKernelCheck(s: State, id: nat) {
    id in s.threads && (s.threads[id].ReadyToCheck? || s.threads[id].Checking? || s.threads[id].Approved?)
  }

  lemma KernelCheckStep(w: Windows, s: State, step: Step, id: nat)
    requires Enabled(s, step) && PastKernelCheck(Next(w, s, step), id)
    ensures !step.Restarted? && (SawNoKernelCommand(s, step, id) || PastKernelCheck(s, id))
  {
  }

  /** An image is only updated by an update that saw no kernel command before. */
  lemma {:induction false} NoImageBesideKernelCommand(w: Windows, trace: seq<State>, steps: seq<Step>, i: nat, id: nat)
    requires IsRun(w, trace, steps) && i < |trace| && PastKernelCheck(trace[i], id)
    ensures exists j :: Earlier(steps, j, i) && SawNoKernelCommand(trace[j], steps[j], id)
  {
    if i > 0 {
      var before := i - 1;
      EarlierLaws(steps, before, i);
      KernelCheckStep(w, trace[before], steps[before], id);
      hide Earlier, Next, Enabled, PastKernelCheck, SawNoKernelCommand;
      if !SawNoKernelCommand(trace[before], steps[before], id) {
        NoImageBesideKernelCommand(w, trace, steps, before, id);
        var j :| Earlier(steps, j, before) && SawNoKernelCommand(trace[j], steps[j], id);
      }
    }
  }

  /** An update that has seen one leaves the image alone, any other goes on to it. */
  lemma KernelCommandSkipsImage(w: Windows, s: State, step: Step)
    requires step.KernelChecked? && Enabled(s, step)
    ensures PastKernelCheck(Next(w, s, step), step.id) <==> SawNoKernelCommand(s, step, step.id)
    ensures !SawNoKernelCommand(s, step, step.id) ==>
              Next(w, s, step).threads[step.id] == AfterImage(s.threads[step.id].scheduled)
  {
  }

  /** The update read the image downloaded last as this one. */
  predicate ReadLast(s: State, step: Step, id: nat, last: Option<Source>) {
    step == LastDownloadedRead(id) && s.lastDownloaded == last
  }

  ghost predicate LookedAt(trace: seq<State>, steps: seq<Step>, i: nat, id: nat, last: Option<Source>)
    requires i < |trace| == |steps| + 1
  {
    exists j :: Earlier(steps, j, i) && ReadLast(trace[j], steps[j], id, last)
  }

  lemma CheckingStep(w: Windows, s: State, step: Step, id: nat)
    requires Enabled(s, step) && id in Next(w, s, step).threads && Next(w, s, step).threads[id].Checking?
    ensures !step.Restarted?
    ensures ReadLast(s, step, id, Next(w, s, step).threads[id].last)
            || (id in s.threads && s.threads[id] == Next(w, s, step).threads[id])
  {
  }

  lemma {:induction false} CheckedWasLast(w: Windows, trace: seq<State>, steps: seq<Step>, i: nat, id: nat)
    requires IsRun(w, trace, steps) && i < |trace| && id in trace[i].threads && trace[i].threads[id].Checking?
    ensures LookedAt(trace, steps, i, id, trace[i].threads[id].last)
  {
    if i > 0 {
      var before, last := i - 1, trace[i].threads[id].last;
      EarlierLaws(steps, before, i);
      CheckingStep(w, trace[before], steps[before], id);
      hide Earlier, Next, Enabled, ReadLast;
      if !ReadLast(trace[before], steps[before], id, last) {
        CheckedWasLast(w, trace, steps, before, id);
        var j :| Earlier(steps, j, before) && ReadLast(trace[j], steps[j], id, last);
      }
    }
  }

  /**
   The check approves an update if and only if the desired image can be read and is the one that
   was downloaded last when the update looked; otherwise the update ends.
   */
  lemma ApprovedExactlyWhenDownloaded(w: Windows, trace: seq<State>, steps: seq<Step>, i: nat)
    returns (last: Option<Source>)
    requires IsRun(w, trace, steps) && i < |steps| && steps[i].DesiredRead?
    ensures LookedAt(trace, steps, i, steps[i].id, last)
    ensures (steps[i].id in trace[i + 1].threads && trace[i + 1].threads[steps[i].id].Approved?)
            <==> steps[i].ok && AreOsImagesEqual(last, trace[i].meta.desired)
    ensures steps[i].ok && AreOsImagesEqual(last, trace[i].meta.desired) ==>
              trace[i + 1].threads[steps[i].id].desired == trace[i].meta.desired
  {
    last := trace[i].threads[steps[i].id].last;
    CheckedWasLast(w, trace, steps, i, steps[i].id);
  }

  /** Which image was published: the source of a download whose record was written. */
  predicate Publishes(s: State, step: Step, image: Source) {
    step.DownloadPublished? && At(s, step.id, (t: Thread) => t == Publishing(image))
  }

  lemma LastDownloadedStep(w: Windows, s: State, step: Step)
    requires Enabled(s, step)
    ensures step.DownloadPublished? ==>
              Next(w, s, step).lastDownloaded.Some? && Publishes(s, step, Next(w, s, step).lastDownloaded.value)
    ensures step.Restarted? ==> Next(w, s, step).lastDownloaded.None?
    ensures !step.DownloadPublished? && !step.Restarted? ==> Next(w, s, step).lastDownloaded == s.lastDownloaded
  {
  }

  ghost predicate PublishedLast(trace: seq<State>, steps: seq<Step>, i: nat, j: int, image: Source)
    requires i < |trace| == |steps| + 1
  {
    Earlier(steps, j, i) && Publishes(trace[j], steps[j], image) && forall k :: j < k < i ==> !steps[k].DownloadPublished?
  }

  /** The image downloaded last is the one published last in this process. */
  lemma {:induction false} LastDownloadedWasPublishedLast(w: Windows, trace: seq<State>, steps: seq<Step>, i: nat)
    requires IsRun(w, trace, steps) && i < |trace| && trace[i].lastDownloaded.Some?
    ensures exists j :: PublishedLast(trace, steps, i, j, trace[i].lastDownloaded.value)
  {
    if i > 0 {
      var before, image := i - 1, trace[i].lastDownloaded.value;
      LastDownloadedStep(w, trace[before], steps[before]);
      EarlierLaws(steps, before, i);
      hide Next, Enabled, Publishes, Earlier;
      if steps[before].DownloadPublished? {
        assert PublishedLast(trace, steps, i, before, image);
      } else {
        LastDownloadedWasPublishedLast(w, trace, steps, before);
        var j :| PublishedLast(trace, steps, before, j, image);
        assert PublishedLast(trace, steps, i, j, image);
      }
    }
  }

  /** As long as there is none, nothing was published. */
  lemma {:induction false} NothingDownloadedNothingPublished(w: Windows, trace: seq<State>, steps: seq<Step>, i: nat)
    requires IsRun(w, trace, steps) && i < |trace| && trace[i].lastDownloaded.None?
    ensures forall j :: Earlier(steps, j, i) ==> !steps[j].DownloadPublished?
  {
    if i > 0 {
      var before := i - 1;
      LastDownloadedStep(w, trace[before], steps[before]);
      EarlierLaws(steps, before, i);
      hide Next, Enabled;
      if !steps[before].Restarted? {
        NothingDownloadedNothingPublished(w, trace, steps, before);
        hide Earlier;
      }
    }
  }

  // ----- The downloader's timers in the interleaving -----

  /** The notifications and firings since the last restart, in order. */
  function CallsSince(trace: seq<State>, steps: seq<Step>, i: nat): seq<Call>
    requires i < |trace| == |steps| + 1
  {
    if i == 0 then []
    else match steps[i - 1]
      case Notified(draw, source, nextRunTime, booted) =>
        CallsSince(trace, steps, i - 1) + [Notify(trace[i - 1].clock, draw, source, nextRunTime, booted)]
      case TimerFired(timer) => CallsSince(trace, steps, i - 1) + [Fire(timer)]
      case Restarted => []
      case _ => CallsSince(trace, steps, i - 1)
  }

  lemma TimersStep(w: Windows, s: State, step: Step)
    requires Enabled(s, step)
    ensures Next(w, s, step).timers == match step
              case Notified(draw, source, nextRunTime, booted) =>
                AfterCall(w, s.timers, Notify(s.clock, draw, source, nextRunTime, booted))
              case TimerFired(timer) => AfterCall(w, s.timers, Fire(timer))
              case Restarted => UNSCHEDULED
              case _ => s.timers
  {
  }

  /** In every interleaving the timers are those of the downloader after its calls in this process. */
  lemma {:induction false} TimersFollowCalls(w: Windows, trace: seq<State>, steps: seq<Step>, i: nat)
    requires IsRun(w, trace, steps) && i < |trace|
    ensures trace[i].timers == AfterCalls(w, UNSCHEDULED, CallsSince(trace, steps, i))
  {
    if i > 0 {
      TimersFollowCalls(w, trace, steps, i - 1);
      TimersStep(w, trace[i - 1], steps[i - 1]);
      hide Next, Enabled, AfterCall;
      var calls := CallsSince(trace, steps, i - 1);
      if steps[i - 1].Notified? || steps[i - 1].TimerFired? {
        var longer := CallsSince(trace, steps, i);
        assert longer[..|longer| - 1] == calls;
      }
    }
  }

  // ----- Without obstacles, downloads and updates get through -----

  /** The state after the steps, if each is enabled in turn. */
  function Play(w: Windows, s: State, steps: seq<Step>): Option<State> {
    if steps == [] then Some(s)
    else match Play(w, s, steps[..|steps| - 1])
      case None => None
      case Some(t) => if Enabled(t, steps[|steps| - 1]) then Some(Next(w, t, steps[|steps| - 1])) else None
  }

  lemma PlayOn(w: Windows, s: State, steps: seq<Step>, t: State, step: Step)
    requires Play(w, s, steps) == Some(t) && Enabled(t, step)
    ensures Play(w, s, steps + [step]) == Some(Next(w, t, step))
  {
    assert (steps + [step])[..|steps|] == steps;
  }

  /** The first half of a download without obstacles. */
  lemma DownloadsRun(w: Windows, s: State, timer: nat)
    requires Inv(s) && Enabled(s, TimerFired(timer)) && s.lock.None? && s.timers.armed[timer].source.Some?
    ensures
      var (id, source) := (s.nextThread, s.timers.armed[timer].source);
      Play(w, s, [TimerFired(timer)] + [DownloadTriesLock(id)] + [DownloadStatusWritten(id, true)]
                 + [DownloadReturned(id, true)])
        == Some(s.(timers := AfterCall(w, s.timers, Fire(timer)), nextThread := id + 1, lock := Some(id),
                   threads := s.threads[id := Downloaded(source)], completed := s.completed + {source.value.imageSha}))
  {
    var id := s.nextThread;
    PlayNothing(w, s);
    hide Play, AfterCall, AreOsImagesEqual;
    PlayOn(w, s, [], s, TimerFired(timer));
    assert [] + [TimerFired(timer)] == [TimerFired(timer)];
    var s1, p1 := Next(w, s, TimerFired(timer)), [TimerFired(timer)];
    PlayOn(w, s, p1, s1, DownloadTriesLock(id));
    var s2, p2 := Next(w, s1, DownloadTriesLock(id)), p1 + [DownloadTriesLock(id)];
    PlayOn(w, s, p2, s2, DownloadStatusWritten(id, true));
    var s3, p3 := Next(w, s2, DownloadStatusWritten(id, true)), p2 + [DownloadStatusWritten(id, true)];
    PlayOn(w, s, p3, s3, DownloadReturned(id, true));
    assert Next(w, s3, DownloadReturned(id, true)).threads == s.threads[id := Downloaded(s.timers.armed[timer].source)];
  }

  /** The second half: the image is published and the lock is free again. */
  lemma DownloadsEnd(w: Windows, s: State, id: nat, image: Source)
    requires id in s.threads && s.threads[id] == Downloaded(Some(image))
    ensures Play(w, s, [DownloadRecorded(id, true)] + [DownloadUnlocks(id)] + [DownloadPublished(id)])
         == Some(s.(threads := s.threads - {id}, lock := None, lastDownloaded := Some(image)))
  {
    PlayNothing(w, s);
    hide Play, AfterCall, AreOsImagesEqual;
    PlayOn(w, s, [], s, DownloadRecorded(id, true));
    assert [] + [DownloadRecorded(id, true)] == [DownloadRecorded(id, true)];
    var s1, p1 := Next(w, s, DownloadRecorded(id, true)), [DownloadRecorded(id, true)];
    PlayOn(w, s, p1, s1, DownloadUnlocks(id));
    var s2, p2 := Next(w, s1, DownloadUnlocks(id)), p1 + [DownloadUnlocks(id)];
    PlayOn(w, s, p2, s2, DownloadPublished(id));
    assert Next(w, s2, DownloadPublished(id)).threads == s.threads - {id};
  }

  /** From any state, a due timer that finds the lock free gets its image downloaded and published, and frees the lock. */
  lemma DownloadsGetThrough(w: Windows, s: State, timer: nat)
    requires Inv(s) && Enabled(s, TimerFired(timer)) && s.lock.None? && s.timers.armed[timer].source.Some?
    ensures
      var (id, image) := (s.nextThread, s.timers.armed[timer].source.value);
      var fetched := Play(w, s, [TimerFired(timer)] + [DownloadTriesLock(id)] + [DownloadStatusWritten(id, true)]
                                + [DownloadReturned(id, true)]);
      && fetched.Some?
      && Play(w, fetched.value, [DownloadRecorded(id, true)] + [DownloadUnlocks(id)] + [DownloadPublished(id)])
           == Some(s.(timers := AfterCall(w, s.timers, Fire(timer)), nextThread := id + 1,
                      completed := s.completed + {image.imageSha}, lastDownloaded := Some(image)))
  {
    var id := s.nextThread;
    DownloadsRun(w, s, timer);
    var fetched := Play(w, s, [TimerFired(timer)] + [DownloadTriesLock(id)] + [DownloadStatusWritten(id, true)]
                              + [DownloadReturned(id, true)]).value;
    DownloadsEnd(w, fetched, id, s.timers.armed[timer].source.value);
    hide Play, AfterCall;
    assert fetched.threads - {id} == s.threads;
  }

  lemma PlayNothing(w: Windows, s: State)
    ensures Play(w, s, []) == Some(s)
  {
  }

  /** A job whose window is open and that finds the lock free starts its update. */
  lemma UpdatesStart(w: Windows, s: State, end: int)
    requires !s.booting && s.lock.None? && s.updateMutex.None? && s.clock < end
    ensures
      var id := s.nextThread;
      Play(w, s, [JobTriggered(end)] + [UpdateTakesLock(id)] + [UpdateStarts(id)])
        == Some(s.(threads := s.threads[id := Updating(true)], nextThread := id + 1, lock := Some(id),
                   updateMutex := Some(id)))
  {
    var id := s.nextThread;
    PlayNothing(w, s);
    hide Play, AfterCall, AreOsImagesEqual;
    PlayOn(w, s, [], s, JobTriggered(end));
    assert [] + [JobTriggered(end)] == [JobTriggered(end)];
    var s1, p1 := Next(w, s, JobTriggered(end)), [JobTriggered(end)];
    PlayOn(w, s, p1, s1, UpdateTakesLock(id));
    var s2, p2 := Next(w, s1, UpdateTakesLock(id)), p1 + [UpdateTakesLock(id)];
    PlayOn(w, s, p2, s2, UpdateStarts(id));
    assert Next(w, s2, UpdateStarts(id)).threads == s.threads[id := Updating(true)];
  }

  /** Without a kernel command, and with the desired image downloaded last, it is approved. */
  lemma UpdatesAreApproved(w: Windows, s: State, id: nat)
    requires id in s.threads && s.threads[id] == Updating(true)
    requires s.meta.kernelCommand == "" && AreOsImagesEqual(s.lastDownloaded, s.meta.desired)
    ensures Play(w, s, [KernelChecked(id, true)] + [LastDownloadedRead(id)] + [DesiredRead(id, true)])
         == Some(s.(threads := s.threads[id := Approved(s.meta.desired, true)]))
  {
    PlayNothing(w, s);
    hide Play, AfterCall, AreOsImagesEqual;
    PlayOn(w, s, [], s, KernelChecked(id, true));
    assert [] + [KernelChecked(id, true)] == [KernelChecked(id, true)];
    var s1, p1 := Next(w, s, KernelChecked(id, true)), [KernelChecked(id, true)];
    PlayOn(w, s, p1, s1, LastDownloadedRead(id));
    var s2, p2 := Next(w, s1, LastDownloadedRead(id)), p1 + [LastDownloadedRead(id)];
    PlayOn(w, s, p2, s2, DesiredRead(id, true));
    assert Next(w, s2, DesiredRead(id, true)).threads == s.threads[id := Approved(s.meta.desired, true)];
  }

  /** With the lock taken, or at any failure on its way, a download ends without publishing anything. */
  lemma FailedDownloadsChangeNothing(w: Windows, s: State, id: nat)
    requires id in s.threads
    ensures s.threads[id].Fired? && s.lock.Some? ==>
              Next(w, s, DownloadTriesLock(id)) == s.(threads := s.threads - {id})
    ensures s.threads[id].DownloadLocked? ==>
              Play(w, s, [DownloadStatusWritten(id, false)] + [DownloadUnlocks(id)])
                == Some(s.(threads := s.threads - {id}, lock := None))
    ensures s.threads[id].Downloading? ==>
              Play(w, s, [DownloadReturned(id, false)] + [DownloadUnlocks(id)])
                == Some(s.(threads := s.threads - {id}, lock := None))
    ensures s.threads[id].Downloaded? ==>
              Play(w, s, [DownloadRecorded(id, false)] + [DownloadUnlocks(id)])
                == Some(s.(threads := s.threads - {id}, lock := None))
  {
    if s.threads[id].DownloadLocked? {
      FailsAndUnlocks(w, s, DownloadStatusWritten(id, false), id);
    } else if s.threads[id].Downloading? {
      FailsAndUnlocks(w, s, DownloadReturned(id, false), id);
    } else if s.threads[id].Downloaded? {
      FailsAndUnlocks(w, s, DownloadRecorded(id, false), id);
    }
  }

  lemma FailsAndUnlocks(w: Windows, s: State, step: Step, id: nat)
    requires id in s.threads && Enabled(s, step)
    requires step in {DownloadStatusWritten(id, false), DownloadReturned(id, false), DownloadRecorded(id, false)}
    ensures Play(w, s, [step] + [DownloadUnlocks(id)]) == Some(s.(threads := s.threads - {id}, lock := None))
  {
    PlayNothing(w, s);
    hide Play, AfterCall;
    PlayOn(w, s, [], s, step);
    assert [] + [step] == [step];
    var failed := Next(w, s, step);
    PlayOn(w, s, [step], failed, DownloadUnlocks(id));
    assert Next(w, failed, DownloadUnlocks(id)).threads == s.threads - {id};
  }

  /** A scheduled update that fails gives back both locks. */
  lemma FailedUpdatesChangeNothing(w: Windows, s: State, id: nat)
    requires Enabled(s, UpdateAborted(id)) && s.threads[id].scheduled
    ensures Play(w, s, [UpdateAborted(id)] + [UpdateUnlocks(id)])
         == Some(s.(threads := s.threads - {id}, lock := None, updateMutex := None))
  {
    PlayNothing(w, s);
    hide Play, AfterCall;
    PlayOn(w, s, [], s, UpdateAborted(id));
    assert [] + [UpdateAborted(id)] == [UpdateAborted(id)];
    var failed := Next(w, s, UpdateAborted(id));
    PlayOn(w, s, [UpdateAborted(id)], failed, UpdateUnlocks(id));
    assert Next(w, failed, UpdateUnlocks(id)).threads == s.threads - {id};
  }

  /** A restart loses everything but the record. */
  lemma RestartKeepsTheRecord(w: Windows, s: State)
    ensures var t := Next(w, s, Restarted);
            && t.meta == s.meta && t.clock == s.clock && t.booting
            && t.threads == map[] && t.lock.None? && t.updateMutex.None? && t.lastDownloaded.None?
            && t.timers.armed == map[]
  {
  }

  /**
   From any state in the main loop, a job whose window is open and that finds the lock free runs the
   image command for the desired image, if that was downloaded last and no kernel command is set.
   */
  lemma UpdatesGetThrough(w: Windows, s: State, end: int)
    requires MutexInLock(s) && Inv(s) && !s.booting && s.lock.None? && s.clock < end
    requires s.meta.kernelCommand == "" && AreOsImagesEqual(s.lastDownloaded, s.meta.desired)
    ensures
      var id := s.nextThread;
      var updating := Play(w, s, [JobTriggered(end)] + [UpdateTakesLock(id)] + [UpdateStarts(id)]);
      && updating.Some?
      && var ready := Play(w, updating.value,
                           [KernelChecked(id, true)] + [LastDownloadedRead(id)] + [DesiredRead(id, true)]);
         && ready.Some? && Enabled(ready.value, ImageUpdateExecuted(id))
         && ready.value.threads[id].desired == s.meta.desired
         && Play(w, ready.value, [ImageUpdateExecuted(id)] + [UpdateEnds(id)] + [UpdateUnlocks(id)])
              == Some(s.(nextThread := id + 1))
  {
    var id := s.nextThread;
    UpdatesStart(w, s, end);
    var updating := Play(w, s, [JobTriggered(end)] + [UpdateTakesLock(id)] + [UpdateStarts(id)]).value;
    UpdatesAreApproved(w, updating, id);
    var ready := Play(w, updating, [KernelChecked(id, true)] + [LastDownloadedRead(id)] + [DesiredRead(id, true)]).value;
    hide Play;
    assert ready.threads == s.threads[id := Approved(s.meta.desired, true)];
    ApprovedUpdateEnds(w, s, ready, id);
  }

  lemma ApprovedUpdateEnds(w: Windows, s: State, ready: State, id: nat)
    requires Inv(s) && s.lock.None? && s.updateMutex.None? && id == s.nextThread
    requires ready == s.(threads := s.threads[id := Approved(s.meta.desired, true)], nextThread := id + 1,
                         lock := Some(id), updateMutex := Some(id))
    ensures Play(w, ready, [ImageUpdateExecuted(id)] + [UpdateEnds(id)] + [UpdateUnlocks(id)])
         == Some(s.(nextThread := id + 1))
  {
    PlayNothing(w, ready);
    hide Play;
    PlayOn(w, ready, [], ready, ImageUpdateExecuted(id));
    var s1, p1 := Next(w, ready, ImageUpdateExecuted(id)), [ImageUpdateExecuted(id)];
    assert [] + [ImageUpdateExecuted(id)] == p1;
    PlayOn(w, ready, p1, s1, UpdateEnds(id));
    var s2, p2 := Next(w, s1, UpdateEnds(id)), p1 + [UpdateEnds(id)];
    PlayOn(w, ready, p2, s2, UpdateUnlocks(id));
    assert Next(w, s2, UpdateUnlocks(id)).threads == s.threads;
  }
}
