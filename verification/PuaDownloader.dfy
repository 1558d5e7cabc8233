/**
 The platform update agent's downloader: when a pre-download is due, which timer is armed for
 it, and the operation lock it shares with updates. Instants and durations are nanoseconds.
 */
module PuaDownloader {
  import opened Wrappers

  /** An OS profile update source; only the SHA identifies the image. */
  datatype Source = Source(imageUrl: string, imageId: string, imageSha: string, profile: string)

  predicate AreOsImagesEqual(a: Option<Source>, b: Option<Source>) {
    match (a, b)
    case (Some(x), Some(y)) => x.imageSha == y.imageSha
    case _ => a.None? && b.None?
  }

  /** Two images are the same exactly when their SHAs are; a missing source is only the same as another missing one. */
  lemma ImagesAreTheirShas(x: Source, imageUrl: string, imageId: string, imageSha: string, profile: string)
    ensures AreOsImagesEqual(Some(x), Some(Source(imageUrl, imageId, imageSha, profile))) <==> imageSha == x.imageSha
    ensures !AreOsImagesEqual(Some(x), None) && !AreOsImagesEqual(None, Some(x)) && AreOsImagesEqual(None, None)
  {
  }

  function Max(a: int, b: int): int {
    if a < b then b else a
  }

  datatype Windows = Windows(immediate: int, download: int)

  /** The configuration rejects negative windows. */
  predicate NonNegative(w: Windows) {
    w.immediate >= 0 && w.download >= 0
  }

  function CalculateDownloadStart(w: Windows, now: int, updateStart: int): (range: (int, int)) {
    var immediateWindowStart := updateStart - w.immediate;
    var downloadWindowStart := immediateWindowStart - w.download;
    if now <= downloadWindowStart then (downloadWindowStart, immediateWindowStart)
    else if downloadWindowStart < now && now < immediateWindowStart then (now, immediateWindowStart)
    else (now, now)
  }

  /**
   The range is what remains of the download window, clamped to the present, except when a
   negative download window puts the present between the swapped ends.
   */
  lemma DownloadStartIsClamped(w: Windows, now: int, updateStart: int)
    ensures CalculateDownloadStart(w, now, updateStart)
              == (Max(now, updateStart - w.immediate - w.download), Max(now, updateStart - w.immediate))
            <==> !(updateStart - w.immediate < now <= updateStart - w.immediate - w.download)
    ensures NonNegative(w) ==>
              CalculateDownloadStart(w, now, updateStart)
                == (Max(now, updateStart - w.immediate - w.download), Max(now, updateStart - w.immediate))
  {
  }

  /** draw stands for the random number generator's answer. */
  function GetRandomTimeInRange(start: int, end: int, draw: nat): (time: int)
    ensures start == end ==> time == start
    ensures start < end ==> start <= time < end
    ensures end < start ==> end <= time < start
  {
    var (low, high) := if start > end then (end, start) else (start, end);
    var duration := high - low;
    if duration == 0 then low else low + draw % duration
  }

  /** No time of the range is out of reach. */
  lemma EveryTimeIsDrawn(start: int, end: int, time: int)
    requires start <= time < end
    ensures exists draw: nat :: GetRandomTimeInRange(start, end, draw) == time
    ensures exists draw: nat :: GetRandomTimeInRange(end, start, draw) == time
  {
    var draw: nat := time - start;
    assert draw % (end - start) == draw;
    assert GetRandomTimeInRange(start, end, draw) == time && GetRandomTimeInRange(end, start, draw) == time;
  }

  // ----- Timers -----

  datatype Timer = Timer(armedAt: int, target: int, source: Option<Source>)

  /**
   The downloader's scheduling state. armed holds the timers the runtime will still fire;
   a missing lastUpdateStart is the zero time.
   */
  datatype Schedule = Schedule(
    armed: map<nat, Timer>,
    downloadTimer: Option<nat>,
    nextTimer: nat,
    lastUpdateStart: Option<int>,
    lastUpdateSource: Option<Source>)

  const UNSCHEDULED := Schedule(map[], None, 0, None, None)

  datatype Call =
    | Notify(now: int, draw: nat, updateSource: Option<Source>, nextRunTime: Option<int>,
             bootedSource: Option<Source>)
    | Fire(timer: nat)

  function StopTimer(s: Schedule): Schedule {
    match s.downloadTimer
    case None => s
    case Some(id) => s.(armed := s.armed - {id})
  }

  predicate Changed(s: Schedule, updateSource: Option<Source>, nextRunTime: Option<int>) {
    s.lastUpdateStart != nextRunTime || !AreOsImagesEqual(updateSource, s.lastUpdateSource)
  }

  function AfterCall(w: Windows, s: Schedule, call: Call): Schedule {
    match call
    case Fire(id) => s.(armed := s.armed - {id})
    case Notify(now, draw, updateSource, nextRunTime, booted) =>
      if AreOsImagesEqual(updateSource, booted) then StopTimer(s)
      else if !Changed(s, updateSource, nextRunTime) then s
      else
        var stopped := StopTimer(s);
        var timed :=
          if nextRunTime.None? then stopped
          else
            var (rangeStart, rangeEnd) := CalculateDownloadStart(w, now, nextRunTime.value);
            var target := GetRandomTimeInRange(rangeStart, rangeEnd, draw);
            stopped.(armed := stopped.armed[s.nextTimer := Timer(now, target, updateSource)],
                     downloadTimer := Some(s.nextTimer),
                     nextTimer := s.nextTimer + 1);
        timed.(lastUpdateStart := nextRunTime, lastUpdateSource := updateSource)
  }

  function AfterCalls(w: Windows, s: Schedule, calls: seq<Call>): Schedule {
    if calls == [] then s
    else AfterCall(w, AfterCalls(w, s, calls[..|calls| - 1]), calls[|calls| - 1])
  }

  /** The target lies in what remained of the download window when the timer was armed. */
  predicate InDownloadRange(w: Windows, t: Timer, updateStart: int) {
    var first := Max(t.armedAt, updateStart - w.immediate - w.download);
    var last := Max(t.armedAt, updateStart - w.immediate);
    first <= t.target <= last && (first < last ==> t.target < last)
  }

  /** At most one timer is armed; it is the current one and serves the last notified update. */
  predicate Consistent(w: Windows, s: Schedule) {
    && (s.downloadTimer.Some? ==> s.downloadTimer.value < s.nextTimer)
    && forall id :: id in s.armed ==>
         && s.downloadTimer == Some(id)
         && s.armed[id].source == s.lastUpdateSource
         && s.lastUpdateStart.Some?
         && InDownloadRange(w, s.armed[id], s.lastUpdateStart.value)
  }

  lemma CallKeepsConsistent(w: Windows, s: Schedule, call: Call)
    requires NonNegative(w) && Consistent(w, s)
    ensures Consistent(w, AfterCall(w, s, call))
  {
  }

  /** After any notifications and firings, in any order. */
  lemma {:induction false} CallsKeepConsistent(w: Windows, calls: seq<Call>)
    requires NonNegative(w)
    ensures Consistent(w, AfterCalls(w, UNSCHEDULED, calls))
    ensures |AfterCalls(w, UNSCHEDULED, calls).armed| <= 1
  {
    var s := AfterCalls(w, UNSCHEDULED, calls);
    if calls != [] {
      CallsKeepConsistent(w, calls[..|calls| - 1]);
      CallKeepsConsistent(w, AfterCalls(w, UNSCHEDULED, calls[..|calls| - 1]), calls[|calls| - 1]);
    }
    if id :| id in s.armed {
      assert s.armed.Keys == {id};
    }
  }

  /** Time and image of the last notification that was not for the booted image; initially there are none. */
  function LastHeard(calls: seq<Call>): (Option<int>, Option<Source>) {
    if calls == [] then (None, None)
    else match calls[|calls| - 1]
      case Notify(_, _, updateSource, nextRunTime, booted) =>
        if AreOsImagesEqual(updateSource, booted) then LastHeard(calls[..|calls| - 1]) else (nextRunTime, updateSource)
      case Fire(_) => LastHeard(calls[..|calls| - 1])
  }

  /** The downloader remembers the last time it heard, and the last image up to its SHA. */
  lemma {:induction false} RemembersLastHeard(w: Windows, calls: seq<Call>)
    ensures AfterCalls(w, UNSCHEDULED, calls).lastUpdateStart == LastHeard(calls).0
    ensures AreOsImagesEqual(AfterCalls(w, UNSCHEDULED, calls).lastUpdateSource, LastHeard(calls).1)
  {
    if calls != [] {
      RemembersLastHeard(w, calls[..|calls| - 1]);
    }
  }

  /** The notification differs from the last one heard in time or image. */
  predicate IsNews(calls: seq<Call>, notify: Call)
    requires notify.Notify?
  {
    notify.nextRunTime != LastHeard(calls).0 || !AreOsImagesEqual(notify.updateSource, LastHeard(calls).1)
  }

  predicate IsBooted(notify: Call)
    requires notify.Notify?
  {
    AreOsImagesEqual(notify.updateSource, notify.bootedSource)
  }

  /**
   What one notification leaves armed, after any history: nothing when the image is already
   booted or no update is scheduled, and otherwise a timer exactly if one was armed before or
   time or image are news. A repeated notification changes nothing at all, so it never re-arms a
   cancelled download.
   */
  lemma NotifyArms(w: Windows, calls: seq<Call>, notify: Call)
    requires NonNegative(w) && notify.Notify?
    ensures
      var before, after := AfterCalls(w, UNSCHEDULED, calls), AfterCalls(w, UNSCHEDULED, calls + [notify]);
      && (IsBooted(notify) || notify.nextRunTime.None? ==> after.armed == map[])
      && (!IsBooted(notify) && notify.nextRunTime.Some? ==>
            (after.armed != map[] <==> before.armed != map[] || IsNews(calls, notify)))
      && (!IsBooted(notify) && !IsNews(calls, notify) ==> after == before)
  {
    CallsKeepConsistent(w, calls);
    RemembersLastHeard(w, calls);
    assert (calls + [notify])[..|calls|] == calls;
    var before, after := AfterCalls(w, UNSCHEDULED, calls), AfterCalls(w, UNSCHEDULED, calls + [notify]);
    assert after == AfterCall(w, before, notify);
    assert StopTimer(before).armed == map[];
    if IsNews(calls, notify) && notify.nextRunTime.Some? && !IsBooted(notify) {
      assert before.nextTimer in after.armed;
    }
  }

  /** A timer armed after a notification serves it: its image, in the download range of its update. */
  lemma ArmedTimersServeTheNotification(w: Windows, calls: seq<Call>, notify: Call, id: nat)
    requires NonNegative(w) && notify.Notify? && id in AfterCalls(w, UNSCHEDULED, calls + [notify]).armed
    ensures
      var timer := AfterCalls(w, UNSCHEDULED, calls + [notify]).armed[id];
      && notify.nextRunTime.Some? && !IsBooted(notify)
      && AreOsImagesEqual(timer.source, notify.updateSource)
      && InDownloadRange(w, timer, notify.nextRunTime.value)
      && (IsNews(calls, notify) ==> timer.armedAt == notify.now && timer.source == notify.updateSource)
  {
    CallsKeepConsistent(w, calls + [notify]);
    RemembersLastHeard(w, calls + [notify]);
    NotifyArms(w, calls, notify);
    if !IsBooted(notify) && IsNews(calls, notify) {
      NewsArmsAnew(w, calls, notify);
    }
    assert (calls + [notify])[..|calls|] == calls;
  }

  lemma NewsArmsAnew(w: Windows, calls: seq<Call>, notify: Call)
    requires NonNegative(w) && notify.Notify? && !IsBooted(notify) && IsNews(calls, notify)
    ensures forall id :: id in AfterCalls(w, UNSCHEDULED, calls + [notify]).armed ==>
              AfterCalls(w, UNSCHEDULED, calls + [notify]).armed[id].armedAt == notify.now
              && AfterCalls(w, UNSCHEDULED, calls + [notify]).armed[id].source == notify.updateSource
  {
    CallsKeepConsistent(w, calls);
    RemembersLastHeard(w, calls);
    assert (calls + [notify])[..|calls|] == calls;
    assert StopTimer(AfterCalls(w, UNSCHEDULED, calls)).armed == map[];
  }

  /** A timer that has fired is gone, and firing changes nothing else. */
  lemma FiredTimersAreGone(w: Windows, calls: seq<Call>, id: nat)
    ensures
      var before, after := AfterCalls(w, UNSCHEDULED, calls), AfterCalls(w, UNSCHEDULED, calls + [Fire(id)]);
      && id !in after.armed
      && (forall other :: other != id && other in before.armed ==>
            other in after.armed && after.armed[other] == before.armed[other])
      && LastHeard(calls + [Fire(id)]) == LastHeard(calls)
  {
    assert (calls + [Fire(id)])[..|calls|] == calls;
  }

  // ----- The object -----

  datatype Outcome = Succeeds | Fails

  class Downloader {
    const windows: Windows
    // Runtime timers and the fields behind the state lock.
    var armed: map<nat, Timer>
    var nextTimer: nat
    var downloadTimer: Option<nat>
    var lastUpdateStart: Option<int>
    var lastUpdateSource: Option<Source>
    var lastDownloaded: Option<Source>
    // The operation lock, and the images the executor has downloaded completely.
    var locked: bool
    ghost var completed: set<Option<Source>>

    function Timers(): Schedule
      reads this
    {
      Schedule(armed, downloadTimer, nextTimer, lastUpdateStart, lastUpdateSource)
    }

    ghost predicate Valid()
      reads this
    {
      && NonNegative(windows)
      && Consistent(windows, Timers())
      && (lastDownloaded.Some? ==> lastDownloaded in completed)
    }

    constructor (windows: Windows)
      requires NonNegative(windows)
      ensures Valid() && Timers() == UNSCHEDULED && !locked && this.windows == windows
    {
      this.windows := windows;
      armed, nextTimer, downloadTimer := map[], 0, None;
      lastUpdateStart, lastUpdateSource, lastDownloaded := None, None, None;
      locked, completed := false, {};
    }

    method Stop()
      modifies this`armed
      ensures Timers() == StopTimer(old(Timers()))
    {
      if downloadTimer.Some? {
        armed := armed - {downloadTimer.value};
      }
    }

    method Notify(now: int, draw: nat, updateSource: Option<Source>, nextRunTime: Option<int>,
                  bootedSource: Option<Source>)
      requires Valid()
      modifies this
      ensures Valid() && lastDownloaded == old(lastDownloaded) && locked == old(locked)
      ensures Timers() == AfterCall(windows, old(Timers()),
                                    Call.Notify(now, draw, updateSource, nextRunTime, bootedSource))
    {
      CallKeepsConsistent(windows, Timers(), Call.Notify(now, draw, updateSource, nextRunTime, bootedSource));
      if AreOsImagesEqual(updateSource, bootedSource) {
        Stop();
        return;
      }
      if lastUpdateStart != nextRunTime || !AreOsImagesEqual(updateSource, lastUpdateSource) {
        Stop();
        if nextRunTime.Some? {
          var range := CalculateDownloadStart(windows, now, nextRunTime.value);
          var downloadTime := GetRandomTimeInRange(range.0, range.1, draw);
          armed := armed[nextTimer := Timer(now, downloadTime, updateSource)];
          downloadTimer, nextTimer := Some(nextTimer), nextTimer + 1;
        }
        lastUpdateStart, lastUpdateSource := nextRunTime, updateSource;
      }
    }

    /**
     startDownload. It succeeds only through the lock, the executor and both status writes,
     and in every case leaves the lock as it found it.
     */
    method StartDownload(source: Option<Source>, statusWrite: Outcome, download: Outcome, finalWrite: Outcome)
      returns (downloaded: bool)
      requires Valid()
      modifies this`locked, this`completed
      ensures Valid() && locked == old(locked)
      ensures downloaded <==> !old(locked) && statusWrite.Succeeds? && download.Succeeds? && finalWrite.Succeeds?
      ensures completed == if !old(locked) && statusWrite.Succeeds? && download.Succeeds?
                           then old(completed) + {source} else old(completed)
    {
      if locked {
        return false;
      }
      locked := true;
      downloaded := false;
      if statusWrite.Succeeds? {
        if download.Succeeds? {
          completed := completed + {source};
          downloaded := finalWrite.Succeeds?;
        }
      }
      locked := false;
    }

    /** The timer callback: download, and publish the image only if that succeeded. */
    method TimerFires(id: nat, statusWrite: Outcome, download: Outcome, finalWrite: Outcome)
      requires Valid() && id in armed
      modifies this
      ensures Valid() && locked == old(locked)
      ensures Timers() == AfterCall(windows, old(Timers()), Fire(id))
      ensures lastDownloaded == if !old(locked) && statusWrite.Succeeds? && download.Succeeds? && finalWrite.Succeeds?
                                then old(lastUpdateSource) else old(lastDownloaded)
    {
      var source := armed[id].source;
      armed := armed - {id};
      var downloaded := StartDownload(source, statusWrite, download, finalWrite);
      if downloaded {
        lastDownloaded := source;
      }
    }
  }
}
