/**
 The maintenance window of an update: the duration triggerUpdate computes, the start time and
 duration StartUpdate persists, and the timeout check before every subsystem updater, also
 when an interrupted update continues after a restart. Instants are nanoseconds.
 */
module PuaWindow {
  import opened Clock
  import opened Wrappers

  const HALF_SECOND := 500_000_000

  /** Time.Unix: whole seconds, towards the past. */
  function Unix(instant: int): int {
    instant / SECOND
  }

  /** math.Round of a duration in seconds: half away from zero. */
  function RoundSeconds(duration: int): (seconds: int)
    ensures -HALF_SECOND <= seconds * SECOND - duration <= HALF_SECOND
    ensures duration >= 0 ==> seconds * SECOND - duration > -HALF_SECOND
    ensures duration < 0 ==> seconds * SECOND - duration < HALF_SECOND
  {
    if duration >= 0 then (duration + HALF_SECOND) / SECOND else -((-duration + HALF_SECOND) / SECOND)
  }

  /** int64 of a duration in seconds: towards zero. */
  function TruncateSeconds(duration: int): (seconds: int)
    ensures duration >= 0 ==> seconds * SECOND <= duration < (seconds + 1) * SECOND
    ensures duration <= 0 ==> (seconds - 1) * SECOND < duration <= seconds * SECOND
  {
    if duration >= 0 then duration / SECOND else -((-duration) / SECOND)
  }

  // ----- The window of a single schedule -----

  const TEN_MINUTES := 600 * SECOND

  /** The start and end scheduleSingleRun hands to the job, or None when it skips scheduling. */
  function SingleRun(startSeconds: nat, endSeconds: nat, now: int): Option<(int, int)> {
    var startTime := startSeconds * SECOND;
    var endTime := endSeconds * SECOND;
    var startsNow := endSeconds != 0 && startTime < now && endTime > now + TEN_MINUTES;
    var start := if startsNow then now + SECOND else startTime;
    var durationSeconds := if endSeconds != 0 then TruncateSeconds(endTime - start) else 0;
    if start < now then None else Some((start, start + durationSeconds * SECOND))
  }

  /** A bounded single schedule never outlives its end and gives away less than a second of it. */
  lemma SingleRunEndsInTime(startSeconds: nat, endSeconds: nat, now: int)
    requires endSeconds != 0 && SingleRun(startSeconds, endSeconds, now).Some?
    ensures var (start, end) := SingleRun(startSeconds, endSeconds, now).value;
            && start >= now
            && endSeconds * SECOND - SECOND < end <= endSeconds * SECOND
  {
  }

  /** Its start has passed, but its end is more than ten minutes away: it is to run at once. */
  predicate StartsLate(startSeconds: nat, endSeconds: nat, now: int) {
    startSeconds * SECOND < now && endSeconds != 0 && endSeconds * SECOND > now + 600 * SECOND
  }

  /**
   A single schedule runs when it says, or a second from now when its start has passed and its end
   is more than ten minutes away, and is skipped otherwise.
   */
  lemma SingleRunStartsOnTime(startSeconds: nat, endSeconds: nat, now: int)
    ensures var run := SingleRun(startSeconds, endSeconds, now);
            && (run.Some? ==> run.value.0 >= startSeconds * SECOND)
            && (startSeconds * SECOND >= now ==> run.Some? && run.value.0 == startSeconds * SECOND)
            && (StartsLate(startSeconds, endSeconds, now) ==> run.Some? && run.value.0 == now + SECOND)
            && (run.Some? && endSeconds == 0 ==> run.value.1 == run.value.0)
            && (run.None? <==> startSeconds * SECOND < now && !StartsLate(startSeconds, endSeconds, now))
  {
  }

  /** An open-ended single schedule gets an empty window, so a job that runs on time never updates. */
  lemma OpenEndedSingleRunNeverUpdates(startSeconds: nat, now: int, triggered: int)
    requires SingleRun(startSeconds, 0, now).Some?
    requires triggered >= SingleRun(startSeconds, 0, now).value.0
    ensures !(triggered < SingleRun(startSeconds, 0, now).value.1)
  {
  }

  // ----- Updates against the persisted window -----

  /**
   A window as one StartUpdate saw it: its end, when triggerUpdate read the clock for the
   duration, and when StartUpdate read it for the start time.
   */
  datatype Window = Window(end: int, asked: int, started: int)

  function DurationOf(w: Window): int {
    RoundSeconds(w.end - w.asked)
  }

  /** The instant before which updaters have to start: the window's end, half a second, and the lag. */
  function Limit(w: Window): int {
    w.end + HALF_SECOND + (w.started - w.asked)
  }

  /** What the metadata says is in progress. */
  datatype Progress = NotRecorded | SelfUpdate | InbmUpdate | OsUpdate

  /**
   The persisted fields. Start time and duration come with the window each was written for; a
   field that was never written stands for a window of no length.
   */
  datatype Meta = Meta(
    updateTime: int, updateDuration: int, timeOf: Window, durationOf: Window,
    started: bool, progress: Progress)

  datatype Subsystem = Packages | Self | Inbm | Kernel | NewPackages | OsAndPackages | Emt | EmtKernel

  const UBUNTU := [Packages, Self, Inbm, Kernel, NewPackages, OsAndPackages]
  const EDGE_MICROVISOR := [Emt, EmtKernel]

  /** What an updater may record as being in progress; only one of them updates the agent itself. */
  function Records(u: Subsystem): Option<Progress> {
    match u
    case Packages => None
    case Self => Some(SelfUpdate)
    case Inbm => Some(InbmUpdate)
    case EmtKernel => None
    case _ => Some(OsUpdate)
  }

  /** An update under way knows its next or present updater and whether it was continued at boot. */
  datatype Phase =
    | Booting
    | Idle
    | Opened(end: int)
    | Asked(end: int, asked: int)
    | Starting(end: int, asked: int)
    | TimeDue(window: Window)
    | DurationDue(window: Window)
    | BetweenUpdaters(next: nat, continued: bool)
    | RunningUpdater(current: nat, continued: bool)

  datatype State = State(updaters: seq<Subsystem>, clock: int, meta: Meta, phase: Phase)

  /** recorded says whether writing the failure status succeeds. */
  datatype Step =
    | Tick(elapsed: nat)
    | FindTime(end: int)
    | AskDuration
    | WriteStarted(ok: bool)
    | ReadStartTime
    | WriteTime(ok: bool)
    | WriteDuration(ok: bool)
    | CheckTimeout(recorded: bool)
    | RecordProgress
    | UpdaterReturns(ok: bool, recorded: bool)
    | AllUpdatersDone
    | OtherStatusWritten
    | Crash
    | ContinueAtBoot
    | RebootVerified(stillStarted: bool)
    | BootEnds

  /** The record asks the booting agent to continue: an update was started and was updating the agent. */
  predicate AsksToContinue(m: Meta) {
    m.started && m.progress.SelfUpdate?
  }

  predicate Enabled(s: State, step: Step) {
    match step
    case Tick(_) => true
    case FindTime(_) => s.phase.Idle?
    case AskDuration => s.phase.Opened?
    case WriteStarted(_) => s.phase.Asked?
    case ReadStartTime => s.phase.Starting?
    case WriteTime(_) => s.phase.TimeDue?
    case WriteDuration(_) => s.phase.DurationDue?
    case CheckTimeout(_) => s.phase.BetweenUpdaters? && s.phase.next < |s.updaters|
    case RecordProgress =>
      s.phase.RunningUpdater? && s.phase.current < |s.updaters| && Records(s.updaters[s.phase.current]).Some?
    case UpdaterReturns(_, _) => s.phase.RunningUpdater?
    case AllUpdatersDone => s.phase.BetweenUpdaters? && s.phase.next >= |s.updaters|
    case OtherStatusWritten => true
    case Crash => true
    case ContinueAtBoot => s.phase.Booting? && AsksToContinue(s.meta)
    case RebootVerified(_) => s.phase.Booting? && s.meta.started && s.meta.progress.OsUpdate?
    case BootEnds => s.phase.Booting?
  }

  /** checkTimeout's verdict; a zero duration disables it. */
  predicate InTime(m: Meta, now: int) {
    !(m.updateDuration != 0 && Unix(now) - m.updateTime >= m.updateDuration)
  }

  function Fail(s: State, recorded: bool): State {
    s.(phase := Idle, meta := if recorded then s.meta.(started := false) else s.meta)
  }

  function Next(s: State, step: Step): State
    requires Enabled(s, step)
  {
    match step
    case Tick(elapsed) => s.(clock := s.clock + elapsed)
    case FindTime(end) => if s.clock < end then s.(phase := Opened(end)) else s
    case AskDuration => s.(phase := Asked(s.phase.end, s.clock))
    case WriteStarted(ok) =>
      if ok then s.(meta := s.meta.(started := true), phase := Starting(s.phase.end, s.phase.asked))
      else s.(phase := Idle)
    case ReadStartTime => s.(phase := TimeDue(Window(s.phase.end, s.phase.asked, s.clock)))
    case WriteTime(ok) =>
      var w := s.phase.window;
      if ok then s.(meta := s.meta.(updateTime := Unix(w.started), timeOf := w), phase := DurationDue(w))
      else s.(phase := Idle)
    case WriteDuration(ok) =>
      var w := s.phase.window;
      if ok then
        s.(meta := s.meta.(updateDuration := DurationOf(w), durationOf := w), phase := BetweenUpdaters(0, false))
      else s.(phase := Idle)
    case CheckTimeout(recorded) =>
      if InTime(s.meta, s.clock) then s.(phase := RunningUpdater(s.phase.next, s.phase.continued))
      else Fail(s, recorded)
    case RecordProgress => s.(meta := s.meta.(progress := Records(s.updaters[s.phase.current]).value))
    case UpdaterReturns(ok, recorded) =>
      if ok then s.(phase := BetweenUpdaters(s.phase.current + 1, s.phase.continued)) else Fail(s, recorded)
    case AllUpdatersDone => s.(phase := Idle)
    case OtherStatusWritten => s.(meta := s.meta.(started := false))
    case Crash => s.(phase := Booting)
    case ContinueAtBoot => s.(phase := BetweenUpdaters(0, true))
    case RebootVerified(stillStarted) => s.(meta := s.meta.(started := stillStarted, progress := NotRecorded))
    case BootEnds => s.(phase := Idle)
  }

  /** A run begins with the start of the agent, on a record that lies in the past. */
  ghost predicate IsRun(trace: seq<State>, steps: seq<Step>) {
    && |trace| == |steps| + 1
    && trace[0].phase.Booting? && Sound(trace[0])
    && forall i :: 0 <= i < |steps| ==> Enabled(trace[i], steps[i]) && trace[i + 1] == Next(trace[i], steps[i])
  }

  /** The persisted fields are what some StartUpdate wrote. */
  predicate Written(m: Meta) {
    m.updateTime == Unix(m.timeOf.started) && m.updateDuration == DurationOf(m.durationOf)
  }

  /** Torn metadata: a start time from one StartUpdate beside a duration from another. */
  predicate Torn(m: Meta) {
    m.timeOf != m.durationOf
  }

  predicate Sound(s: State) {
    && Written(s.meta) && s.meta.timeOf.started <= s.clock
    && match s.phase {
       case TimeDue(w) => w.started <= s.clock
       case DurationDue(w) => s.meta.timeOf == w
       case BetweenUpdaters(_, continued) => !continued ==> !Torn(s.meta)
       case RunningUpdater(_, continued) => !continued ==> !Torn(s.meta)
       case _ => true
       }
  }

  lemma {:induction false} EveryRunIsSound(trace: seq<State>, steps: seq<Step>, i: nat)
    requires IsRun(trace, steps) && i < |trace|
    ensures Sound(trace[i])
  {
    if i > 0 {
      EveryRunIsSound(trace, steps, i - 1);
    }
  }

  /** A subsystem updater starts in this step. */
  predicate StartsUpdater(s: State, step: Step) {
    step.CheckTimeout? && Enabled(s, step) && Next(s, step).phase.RunningUpdater?
  }

  /**
   In every run, restarts included, a subsystem updater starts before the start time on record
   plus the length, give or take half a second, of the window whose duration is on record.
   */
  lemma UpdatersStartInTime(trace: seq<State>, steps: seq<Step>, i: nat)
    requires IsRun(trace, steps) && i < |steps| && StartsUpdater(trace[i], steps[i])
    ensures var m := trace[i].meta;
            m.updateDuration != 0 ==>
              2 * trace[i].clock < 2 * (m.timeOf.started + m.durationOf.end - m.durationOf.asked) + SECOND
  {
    EveryRunIsSound(trace, steps, i);
    var m := trace[i].meta;
    if m.updateDuration != 0 {
      assert Unix(trace[i].clock) < Unix(m.timeOf.started) + m.updateDuration;
    }
  }

  /** The first instant at which checkTimeout stops an update, given a duration other than zero. */
  function Expiry(m: Meta): int {
    (m.updateTime + m.updateDuration) * SECOND
  }

  lemma ExpiryIsExact(m: Meta, now: int)
    ensures InTime(m, now) <==> m.updateDuration == 0 || now < Expiry(m)
  {
  }

  /** A record keeps the updaters before a limit exactly when it has a duration and expires by then. */
  lemma RecordKeepsLimitExactlyWhen(m: Meta, limit: int)
    ensures (forall now :: InTime(m, now) ==> now < limit) <==> m.updateDuration != 0 && Expiry(m) <= limit
  {
    if m.updateDuration == 0 {
      assert InTime(m, limit);
    } else if Expiry(m) > limit {
      assert InTime(m, Expiry(m) - 1);
    }
  }

  function Last(trace: seq<State>): State
    requires trace != []
  {
    trace[|trace| - 1]
  }

  /** A longer run in which the agent waits and then starts the next updater. */
  ghost predicate WaitsAndStarts(trace: seq<State>, steps: seq<Step>, wait: nat, further: seq<State>) {
    && IsRun(further, steps + [Tick(wait), CheckTimeout(true)])
    && |trace| == |steps| + 1
    && trace <= further
    && StartsUpdater(further[|trace|], CheckTimeout(true))
  }

  ghost predicate MayStartNextAt(trace: seq<State>, steps: seq<Step>, now: int)
    requires IsRun(trace, steps)
  {
    exists wait: nat, further :: Last(trace).clock + wait == now && WaitsAndStarts(trace, steps, wait, further)
  }

  lemma MayStartNextExactlyWhen(trace: seq<State>, steps: seq<Step>, now: int)
    requires IsRun(trace, steps) && Enabled(Last(trace), CheckTimeout(true))
    ensures MayStartNextAt(trace, steps, now) <==> Last(trace).clock <= now && InTime(Last(trace).meta, now)
  {
    var s := Last(trace);
    if s.clock <= now && InTime(s.meta, now) {
      var wait: nat := now - s.clock;
      var waited := Next(s, Tick(wait));
      assert WaitsAndStarts(trace, steps, wait, trace + [waited, Next(waited, CheckTimeout(true))]);
    }
    forall wait: nat, further | s.clock + wait == now && WaitsAndStarts(trace, steps, wait, further)
      ensures InTime(s.meta, now)
    {
      var longer := steps + [Tick(wait), CheckTimeout(true)];
      assert further[|steps|] == s && longer[|steps|] == Tick(wait);
      assert further[|trace|] == Next(s, Tick(wait));
    }
  }

  /**
   The window bound, exactly: from any point of any run at which an update is about to check
   its time, the next updater starts before a limit, however long it takes, if and only if the
   record has a duration and expires by the limit, or has expired already.
   */
  lemma LimitIsKeptExactlyWhen(trace: seq<State>, steps: seq<Step>, limit: int)
    requires IsRun(trace, steps) && Enabled(Last(trace), CheckTimeout(true))
    ensures
      var (m, clock) := (Last(trace).meta, Last(trace).clock);
      (forall now :: MayStartNextAt(trace, steps, now) ==> now < limit)
      <==> m.updateDuration != 0 && (Expiry(m) <= limit || Expiry(m) <= clock)
  {
    var (m, clock) := (Last(trace).meta, Last(trace).clock);
    forall now
      ensures MayStartNextAt(trace, steps, now) <==> clock <= now && InTime(m, now)
    {
      MayStartNextExactlyWhen(trace, steps, now);
    }
    var late := if clock < limit then limit else clock;
    if m.updateDuration == 0 {
      assert MayStartNextAt(trace, steps, late);
    } else if Expiry(m) > limit && Expiry(m) > clock {
      assert MayStartNextAt(trace, steps, Expiry(m) - 1);
    }
  }

  /**
   In every run, restarts included: an updater starts before window end + 0.5 s + the lag between
   the two clock readings of the StartUpdate that wrote the start time, provided the record has a
   duration and expires by then. It does whenever duration and start time stem from the same
   StartUpdate and the duration is positive; a negative duration starts nothing.
   */
  lemma UpdatersRespectTheirWindow(trace: seq<State>, steps: seq<Step>, i: nat)
    requires IsRun(trace, steps) && i < |steps| && StartsUpdater(trace[i], steps[i])
    ensures var (m, w) := (trace[i].meta, trace[i].meta.timeOf);
            && (m.updateDuration != 0 && Expiry(m) <= Limit(w) ==> trace[i].clock < Limit(w))
            && (!Torn(m) && DurationOf(w) > 0 ==> m.updateDuration != 0 && Expiry(m) <= Limit(w))
            && (!Torn(m) ==> DurationOf(w) >= 0)
  {
    EveryRunIsSound(trace, steps, i);
    var m := trace[i].meta;
    ExpiryIsExact(m, trace[i].clock);
  }

  /** The updaters that have returned successfully since the present update was started or continued. */
  function ReturnedSince(steps: seq<Step>): nat {
    if steps == [] then 0
    else match steps[|steps| - 1]
      case WriteDuration(_) => 0
      case ContinueAtBoot => 0
      case UpdaterReturns(true, _) => ReturnedSince(steps[..|steps| - 1]) + 1
      case _ => ReturnedSince(steps[..|steps| - 1])
  }

  /** Updaters run in order, from the first, also when an update is continued. */
  lemma {:induction false} UpdatersRunInOrder(trace: seq<State>, steps: seq<Step>, i: nat)
    requires IsRun(trace, steps) && i < |trace|
    ensures match trace[i].phase
            case BetweenUpdaters(next, _) => next == ReturnedSince(steps[..i])
            case RunningUpdater(current, _) => current == ReturnedSince(steps[..i])
            case _ => true
  {
    if i > 0 {
      UpdatersRunInOrder(trace, steps, i - 1);
      assert steps[..i][..i - 1] == steps[..i - 1];
    }
  }

  /** The window the update at hand is to run in, until both of its fields are on record. */
  function EndAhead(phase: Phase): Option<int> {
    match phase
    case Opened(end) => Some(end)
    case Asked(end, _) => Some(end)
    case Starting(end, _) => Some(end)
    case TimeDue(w) => Some(w.end)
    case DurationDue(w) => Some(w.end)
    case _ => None
  }

  /** The job found its window open, and then asked how long it would stay so. */
  predicate FoundTime(s: State, step: Step, end: int) {
    step == FindTime(end) && s.phase.Idle? && s.clock < end
  }

  lemma EndAheadStep(s: State, step: Step)
    requires Enabled(s, step) && EndAhead(Next(s, step).phase).Some?
    ensures FoundTime(s, step, EndAhead(Next(s, step).phase).value)
            || (!step.FindTime? && EndAhead(s.phase) == EndAhead(Next(s, step).phase))
  {
  }

  /** An update only gets under way in a window that was still open when its job looked. */
  lemma {:induction false} UpdatesFindTheirWindowOpen(trace: seq<State>, steps: seq<Step>, i: nat) returns (j: nat)
    requires IsRun(trace, steps) && i < |trace| && EndAhead(trace[i].phase).Some?
    ensures j < i && FoundTime(trace[j], steps[j], EndAhead(trace[i].phase).value)
    ensures forall n :: j < n < i ==> !steps[n].FindTime? && EndAhead(trace[n].phase) == EndAhead(trace[i].phase)
  {
    var before := i - 1;
    j := before;
    EndAheadStep(trace[before], steps[before]);
    hide Next, Enabled, FoundTime, EndAhead, Sound;
    if !FoundTime(trace[before], steps[before], EndAhead(trace[i].phase).value) {
      j := UpdatesFindTheirWindowOpen(trace, steps, before);
    }
  }

  /** ... and a job that finds its window open goes on to ask; any other leaves the agent idle. */
  lemma OpenWindowsAreUsed(s: State, end: int)
    requires s.phase.Idle?
    ensures Next(s, FindTime(end)).phase == if s.clock < end then Opened(end) else Idle
    ensures s.clock < end ==> Enabled(Next(s, FindTime(end)), AskDuration)
  {
  }

  /** Between two updaters the next one gets its turn until all have had theirs, and then the update is done. */
  lemma UpdatersAllGetTheirTurn(trace: seq<State>, steps: seq<Step>, i: nat, recorded: bool)
    requires IsRun(trace, steps) && i < |trace| && trace[i].phase.BetweenUpdaters?
    ensures Enabled(trace[i], CheckTimeout(recorded)) <==> ReturnedSince(steps[..i]) < |trace[i].updaters|
    ensures Enabled(trace[i], AllUpdatersDone) <==> ReturnedSince(steps[..i]) == |trace[i].updaters|
  {
    UpdatersRunInOrder(trace, steps, i);
    UpdatersAreKnown(trace, steps, i);
  }

  lemma {:induction false} UpdatersAreKnown(trace: seq<State>, steps: seq<Step>, i: nat)
    requires IsRun(trace, steps) && i < |trace|
    ensures match trace[i].phase
            case BetweenUpdaters(next, _) => next <= |trace[i].updaters|
            case RunningUpdater(current, _) => current < |trace[i].updaters|
            case _ => true
  {
    if i > 0 {
      UpdatersAreKnown(trace, steps, i - 1);
    }
  }

  /** The step ends the present update: a write or an updater failed, its time is up, or everything is done. */
  predicate EndsUpdate(s: State, step: Step) {
    match step
    case WriteStarted(ok) => !ok
    case WriteTime(ok) => !ok
    case WriteDuration(ok) => !ok
    case CheckTimeout(_) => !InTime(s.meta, s.clock)
    case UpdaterReturns(ok, _) => !ok
    case AllUpdatersDone => true
    case _ => false
  }

  /** An update that has ended does nothing more: the next one is asked for, or continued after a crash. */
  lemma {:induction false} EndedUpdatesStayEnded(trace: seq<State>, steps: seq<Step>, j: nat, i: nat)
    requires IsRun(trace, steps) && j < i < |trace| && EndsUpdate(trace[j], steps[j])
    requires forall n :: j < n < i ==> !steps[n].FindTime? && !steps[n].Crash?
    ensures trace[i].phase.Idle?
    decreases i
  {
    if j < i - 1 {
      EndedUpdatesStayEnded(trace, steps, j, i - 1);
    }
  }

  /** The status on record is STARTED: nothing has overwritten it since. */
  predicate StatusIsStarted(trace: seq<State>, steps: seq<Step>, i: nat)
    requires i < |trace| == |steps| + 1
  {
    if i == 0 then trace[0].meta.started
    else match steps[i - 1]
      case WriteStarted(true) => true
      case OtherStatusWritten => false
      case RebootVerified(stillStarted) => stillStarted
      case CheckTimeout(true) => InTime(trace[i - 1].meta, trace[i - 1].clock) && StatusIsStarted(trace, steps, i - 1)
      case UpdaterReturns(false, true) => false
      case _ => StatusIsStarted(trace, steps, i - 1)
  }

  /** What was last recorded as being in progress; only the verification after a reboot clears it. */
  function ProgressOnRecord(trace: seq<State>, steps: seq<Step>, i: nat): Progress
    requires IsRun(trace, steps) && i < |trace|
  {
    if i == 0 then trace[0].meta.progress
    else if steps[i - 1].RebootVerified? then NotRecorded
    else if steps[i - 1].RecordProgress? then Records(trace[i - 1].updaters[trace[i - 1].phase.current]).value
    else ProgressOnRecord(trace, steps, i - 1)
  }

  lemma RecordStep(s: State, step: Step)
    requires Enabled(s, step)
    ensures Next(s, step).meta.started
            <==> match step
                 case WriteStarted(true) => true
                 case OtherStatusWritten => false
                 case RebootVerified(stillStarted) => stillStarted
                 case CheckTimeout(true) => InTime(s.meta, s.clock) && s.meta.started
                 case UpdaterReturns(false, true) => false
                 case _ => s.meta.started
    ensures Next(s, step).meta.progress
         == if step.RebootVerified? then NotRecorded
            else if step.RecordProgress? then Records(s.updaters[s.phase.current]).value else s.meta.progress
  {
    hide InTime, Records;
  }

  lemma {:induction false} RecordIsLastWritten(trace: seq<State>, steps: seq<Step>, i: nat)
    requires IsRun(trace, steps) && i < |trace|
    ensures trace[i].meta.started <==> StatusIsStarted(trace, steps, i)
    ensures trace[i].meta.progress == ProgressOnRecord(trace, steps, i)
  {
    if i > 0 {
      var before := i - 1;
      RecordIsLastWritten(trace, steps, before);
      RecordStep(trace[before], steps[before]);
      assert trace[i] == Next(trace[before], steps[before]);
      hide Next, Sound, InTime, Records;
    }
  }

  /** An updater may start at any time if and only if the recorded duration is zero. */
  lemma OnlyZeroDurationIsUnbounded(m: Meta)
    ensures (forall now :: InTime(m, now)) <==> m.updateDuration == 0
  {
    ExpiryIsExact(m, Expiry(m));
  }

  /**
   Metadata can only be torn for an update that was continued at boot: StartUpdate itself never
   starts an updater on a start time and a duration from different windows.
   */
  lemma OnlyContinuationsSeeTornMetadata(trace: seq<State>, steps: seq<Step>, i: nat)
    requires IsRun(trace, steps) && i < |steps| && StartsUpdater(trace[i], steps[i])
    ensures Torn(trace[i].meta) ==> trace[i].phase.continued
  {
    EveryRunIsSound(trace, steps, i);
  }

  /** Without an updater for the agent itself, and without one on record at first, no update is ever continued. */
  lemma {:induction false} OnlySelfUpdatesContinue(trace: seq<State>, steps: seq<Step>, i: nat)
    requires IsRun(trace, steps) && i < |trace|
    requires Self !in trace[0].updaters && !trace[0].meta.progress.SelfUpdate?
    ensures trace[i].updaters == trace[0].updaters && !trace[i].meta.progress.SelfUpdate?
    ensures match trace[i].phase
            case BetweenUpdaters(_, continued) => !continued
            case RunningUpdater(_, continued) => !continued
            case _ => true
  {
    if i > 0 {
      OnlySelfUpdatesContinue(trace, steps, i - 1);
    }
  }

  /** Edge Microvisor nodes therefore respect every window with a positive duration. */
  lemma EdgeMicrovisorRespectsItsWindow(trace: seq<State>, steps: seq<Step>, i: nat)
    requires IsRun(trace, steps) && i < |steps| && StartsUpdater(trace[i], steps[i])
    requires trace[0].updaters == EDGE_MICROVISOR && !trace[0].meta.progress.SelfUpdate?
    ensures var w := trace[i].meta.timeOf;
            DurationOf(w) > 0 ==> trace[i].clock < Limit(w)
  {
    OnlySelfUpdatesContinue(trace, steps, i);
    OnlyContinuationsSeeTornMetadata(trace, steps, i);
    UpdatersRespectTheirWindow(trace, steps, i);
  }

  /** A run goes on with an enabled step. */
  lemma Then(trace: seq<State>, steps: seq<Step>, step: Step) returns (trace': seq<State>, steps': seq<Step>)
    requires IsRun(trace, steps) && Enabled(Last(trace), step)
    ensures IsRun(trace', steps') && trace'[0] == trace[0] && Last(trace') == Next(Last(trace), step)
    ensures steps' == steps + [step]
  {
    trace', steps' := trace + [Next(Last(trace), step)], steps + [step];
  }

  const NO_WINDOW := Window(0, 0, 0)
  const HOUR := Window(3600 * SECOND, 0, 0)
  const SHORT := Window(7210 * SECOND, 7200 * SECOND, 7200 * SECOND)

  /** A newly installed Ubuntu node. */
  const NEW_NODE := State(UBUNTU, 0, Meta(0, 0, NO_WINDOW, NO_WINDOW, false, NotRecorded), Booting)

  lemma NewNodeRuns()
    ensures IsRun([NEW_NODE], []) && Last([NEW_NODE]) == NEW_NODE
  {
  }

  /** An idle agent starts an update in a window and writes its start time. */
  lemma WritesStartTime(trace: seq<State>, steps: seq<Step>, w: Window) returns (trace': seq<State>, steps': seq<Step>)
    requires IsRun(trace, steps) && Last(trace).phase.Idle? && w.asked == w.started == Last(trace).clock < w.end
    ensures IsRun(trace', steps') && trace'[0] == trace[0]
    ensures var m := Last(trace).meta.(updateTime := Unix(w.started), timeOf := w, started := true);
            Last(trace') == Last(trace).(meta := m, phase := DurationDue(w))
    ensures steps' == steps + [FindTime(w.end), AskDuration, WriteStarted(true), ReadStartTime, WriteTime(true)]
  {
    hide IsRun, Last;
    trace', steps' := Then(trace, steps, FindTime(w.end));
    trace', steps' := Then(trace', steps', AskDuration);
    trace', steps' := Then(trace', steps', WriteStarted(true));
    trace', steps' := Then(trace', steps', ReadStartTime);
    trace', steps' := Then(trace', steps', WriteTime(true));
  }

  /** Its first two updaters run; the second one marks an update of the agent and fails. */
  lemma SelfUpdateFails(trace: seq<State>, steps: seq<Step>) returns (trace': seq<State>, steps': seq<Step>)
    requires IsRun(trace, steps) && Last(trace).updaters == UBUNTU && Last(trace).phase == BetweenUpdaters(0, false)
    requires InTime(Last(trace).meta, Last(trace).clock)
    ensures IsRun(trace', steps') && trace'[0] == trace[0]
    ensures Last(trace') == Last(trace).(meta := Last(trace).meta.(started := false, progress := SelfUpdate), phase := Idle)
    ensures steps' == steps + [CheckTimeout(true), UpdaterReturns(true, true), CheckTimeout(true), RecordProgress,
                               UpdaterReturns(false, true)]
  {
    hide IsRun, Last;
    trace', steps' := Then(trace, steps, CheckTimeout(true));
    trace', steps' := Then(trace', steps', UpdaterReturns(true, true));
    trace', steps' := Then(trace', steps', CheckTimeout(true));
    trace', steps' := Then(trace', steps', RecordProgress);
    trace', steps' := Then(trace', steps', UpdaterReturns(false, true));
  }

  /** A new node whose first update, in a window of an hour, fails to install the agent's new version. */
  lemma FirstUpdateFails() returns (trace: seq<State>, steps: seq<Step>)
    ensures IsRun(trace, steps) && trace[0] == NEW_NODE && Crash !in steps
    ensures Last(trace) == State(UBUNTU, 0, Meta(0, 3600, HOUR, HOUR, false, SelfUpdate), Idle)
  {
    NewNodeRuns();
    hide IsRun, Last;
    trace, steps := Then([NEW_NODE], [], BootEnds);
    trace, steps := WritesStartTime(trace, steps, HOUR);
    trace, steps := Then(trace, steps, WriteDuration(true));
    assert DurationOf(HOUR) == 3600;
    trace, steps := SelfUpdateFails(trace, steps);
  }

  /**
   The window is not respected in general: after the failed update above, which leaves an update
   of the agent on record, the next StartUpdate has a ten-second window and dies between its two
   writes. The record asks to continue, and the continued update may start an updater half an hour
   after that window has ended.
   */
  lemma TornMetadataOverrunsTheWindow()
    returns (before: seq<Step>, trace: seq<State>, steps: seq<Step>)
    ensures IsRun(trace, steps) && trace[0] == NEW_NODE
    ensures steps == before + [Crash, ContinueAtBoot] && Crash !in before
    ensures var s := Last(trace);
            && StartsUpdater(s, CheckTimeout(true))
            && s.meta == Meta(7200, 3600, SHORT, HOUR, true, SelfUpdate) && DurationOf(SHORT) == 10
            && s.clock == SHORT.end + 1800 * SECOND > Limit(SHORT)
  {
    trace, before := FirstUpdateFails();
    hide IsRun, Last;
    trace, before := Then(trace, before, Tick(7200 * SECOND));
    trace, before := WritesStartTime(trace, before, SHORT);
    trace, before := Then(trace, before, Tick(1810 * SECOND));
    trace, steps := Then(trace, before, Crash);
    trace, steps := Then(trace, steps, ContinueAtBoot);
    assert DurationOf(SHORT) == 10;
  }

  // ----- The loop over the subsystem updaters -----

  class EdgeNodeUpdater {
    var updateTime: int
    var updateDuration: int
    ghost var started: seq<int>

    constructor (updateTime: int, updateDuration: int)
      ensures this.updateTime == updateTime && this.updateDuration == updateDuration && started == []
    {
      this.updateTime, this.updateDuration, started := updateTime, updateDuration, [];
    }

    method CheckTimeout(now: int) returns (expired: bool)
      ensures expired <==> updateDuration != 0 && now >= (updateTime + updateDuration) * SECOND
    {
      expired := updateDuration != 0 && Unix(now) - updateTime >= updateDuration;
    }

    /**
     edgeNodeUpdater.update: subsystem k reads the clock as timeNow(k) and succeeds or not as
     succeeds(k) says. started records when updaters began; every one of them began in time,
     and success means that all of them did.
     */
    method Update(subsystems: nat, timeNow: nat -> int, succeeds: nat -> bool) returns (ok: bool)
      modifies this`started
      ensures |old(started)| <= |started| <= |old(started)| + subsystems
      ensures started[..|old(started)|] == old(started)
      ensures forall k :: 0 <= k < |started| - |old(started)| ==> started[|old(started)| + k] == timeNow(k)
      ensures updateDuration != 0 ==>
                forall k :: 0 <= k < |started| - |old(started)| ==> timeNow(k) < (updateTime + updateDuration) * SECOND
      ensures ok <==> |started| == |old(started)| + subsystems && forall k :: 0 <= k < subsystems ==> succeeds(k)
    {
      for i := 0 to subsystems
        invariant |started| == |old(started)| + i && started[..|old(started)|] == old(started)
        invariant forall k :: 0 <= k < i ==> started[|old(started)| + k] == timeNow(k) && succeeds(k)
        invariant updateDuration != 0 ==>
                    forall k :: 0 <= k < i ==> timeNow(k) < (updateTime + updateDuration) * SECOND
      {
        var expired := CheckTimeout(timeNow(i));
        if expired {
          return false;
        }
        started := started + [timeNow(i)];
        if !succeeds(i) {
          return false;
        }
      }
      return true;
    }
  }
}
