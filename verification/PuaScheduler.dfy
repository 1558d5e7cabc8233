/**
 The platform update agent's scheduler: repeated and single maintenance schedules become
 tagged jobs in one job table, and the schedules last handled are remembered in a Meta record.
 */
module PuaScheduler {
  import opened Wrappers
  import opened Text
  import PuaWindow

  datatype RepeatedSchedule = RepeatedSchedule(
    durationSeconds: int,
    cronMinutes: string,
    cronHours: string,
    cronDayMonth: string,
    cronMonth: string,
    cronDayWeek: string)

  datatype SingleSchedule = SingleSchedule(startSeconds: nat, endSeconds: nat)

  function CronScheduleToString(s: RepeatedSchedule): string {
    s.cronMinutes + " " + s.cronHours + " " + s.cronDayMonth + " " + s.cronMonth + " " + s.cronDayWeek
  }

  /** The five fields of a cron text, in cron's order. */
  lemma CronTextHasItsFields(s: RepeatedSchedule)
    requires ' ' !in s.cronMinutes && ' ' !in s.cronHours && ' ' !in s.cronDayMonth && ' ' !in s.cronMonth
    requires ' ' !in s.cronDayWeek
    ensures Split(CronScheduleToString(s), ' ')
         == [s.cronMinutes, s.cronHours, s.cronDayMonth, s.cronMonth, s.cronDayWeek]
  {
    hide Split;
    var days := s.cronMonth + [' '] + s.cronDayWeek;
    var monthDays := s.cronDayMonth + [' '] + days;
    var hours := s.cronHours + [' '] + monthDays;
    SplitOfFree(s.cronDayWeek, ' ');
    SplitFirst(s.cronMonth, s.cronDayWeek, ' ');
    SplitFirst(s.cronDayMonth, days, ' ');
    SplitFirst(s.cronHours, monthDays, ' ');
    SplitFirst(s.cronMinutes, hours, ' ');
    assert CronScheduleToString(s) == s.cronMinutes + [' '] + hours;
  }

  /** The cron library's verdict on a cron text. */
  type CronParser = string -> bool

  predicate Accepts(parses: CronParser, s: RepeatedSchedule) {
    parses(CronScheduleToString(s))
  }

  /** The schedules whose cron text parses, in order. */
  function Accepted(parses: CronParser, schedules: seq<RepeatedSchedule>): seq<RepeatedSchedule> {
    if schedules == [] then []
    else Accepted(parses, schedules[..|schedules| - 1])
         + (if Accepts(parses, schedules[|schedules| - 1]) then [schedules[|schedules| - 1]] else [])
  }

  predicate NoDuplicates<T(==)>(s: seq<T>) {
    forall i, j :: 0 <= i < j < |s| ==> s[i] != s[j]
  }

  lemma {:induction false} AcceptedCounts(parses: CronParser, schedules: seq<RepeatedSchedule>, x: RepeatedSchedule)
    ensures multiset(Accepted(parses, schedules))[x] == if Accepts(parses, x) then multiset(schedules)[x] else 0
  {
    if schedules != [] {
      var init, last := schedules[..|schedules| - 1], schedules[|schedules| - 1];
      AcceptedCounts(parses, init, x);
      assert schedules == init + [last];
    }
  }

  lemma AcceptedOfPermutation(parses: CronParser, a: seq<RepeatedSchedule>, b: seq<RepeatedSchedule>)
    requires multiset(a) == multiset(b)
    ensures multiset(Accepted(parses, a)) == multiset(Accepted(parses, b))
  {
    forall x
      ensures multiset(Accepted(parses, a))[x] == multiset(Accepted(parses, b))[x]
    {
      AcceptedCounts(parses, a, x);
      AcceptedCounts(parses, b, x);
    }
  }

  /** A duplicate-free list found in a list of the same length is a permutation of it. */
  lemma {:induction false} Pigeonhole<T>(a: seq<T>, b: seq<T>)
    requires NoDuplicates(a) && |a| == |b|
    requires forall x :: x in a ==> x in b
    ensures multiset(a) == multiset(b)
  {
    if a != [] {
      assert a[0] in b;
      var i :| 0 <= i < |b| && b[i] == a[0];
      var rest := b[..i] + b[i + 1..];
      assert b == b[..i] + [b[i]] + b[i + 1..];
      assert a == [a[0]] + a[1..];
      forall x | x in a[1..]
        ensures x in rest
      {
        assert x in a && x != a[0];
        var j :| 0 <= j < |b| && b[j] == x;
        assert x in b[..i] || x in b[i + 1..];
      }
      Pigeonhole(a[1..], rest);
      assert multiset(b) == multiset(rest) + multiset{b[i]};
    }
  }

  // ----- What the handlers do to the repeated schedules -----

  /** The schedules of the tagged jobs, and those on record. */
  datatype Table = Table(installed: seq<RepeatedSchedule>, recorded: seq<RepeatedSchedule>)

  const EMPTY := Table([], [])

  datatype Call = HandleRepeated(schedules: seq<RepeatedSchedule>) | Cleanup

  /** When HandleRepeatedSchedule takes the request for the one already installed. */
  predicate Keeps(t: Table, schedules: seq<RepeatedSchedule>) {
    && t.installed != [] && schedules != [] && |schedules| == |t.recorded|
    && forall s :: s in schedules ==> s in t.recorded
  }

  function AfterCall(parses: CronParser, t: Table, call: Call): Table {
    match call
    case Cleanup => t.(installed := [])
    case HandleRepeated(schedules) =>
      if Keeps(t, schedules) then t else Table(Accepted(parses, schedules), schedules)
  }

  function AfterCalls(parses: CronParser, calls: seq<Call>): Table {
    if calls == [] then EMPTY
    else AfterCall(parses, AfterCalls(parses, calls[..|calls| - 1]), calls[|calls| - 1])
  }

  predicate InSync(parses: CronParser, t: Table) {
    t.installed == [] || t.installed == Accepted(parses, t.recorded)
  }

  lemma {:induction false} AlwaysInSync(parses: CronParser, calls: seq<Call>)
    ensures InSync(parses, AfterCalls(parses, calls))
  {
    if calls != [] {
      AlwaysInSync(parses, calls[..|calls| - 1]);
    }
  }

  /** One request, on a table in sync: a request without duplicates is installed completely. */
  lemma RequestIsInstalled(parses: CronParser, t: Table, schedules: seq<RepeatedSchedule>)
    requires InSync(parses, t) && NoDuplicates(schedules)
    ensures multiset(AfterCall(parses, t, HandleRepeated(schedules)).installed) == multiset(Accepted(parses, schedules))
  {
    if Keeps(t, schedules) {
      Pigeonhole(schedules, t.recorded);
      AcceptedOfPermutation(parses, schedules, t.recorded);
    }
  }

  /**
   After any calls on one Meta, a request without duplicates leaves exactly its valid schedules
   installed. A permutation of the last request then changes nothing at all, unless nothing is
   installed: then nothing still is, and the permutation goes on record.
   */
  lemma RequestsAreInstalled(parses: CronParser, calls: seq<Call>, schedules: seq<RepeatedSchedule>,
                             permuted: seq<RepeatedSchedule>)
    requires NoDuplicates(schedules) && multiset(permuted) == multiset(schedules)
    ensures
      var after := AfterCalls(parses, calls + [HandleRepeated(schedules)]);
      && multiset(after.installed) == multiset(Accepted(parses, schedules))
      && var again := AfterCalls(parses, calls + [HandleRepeated(schedules), HandleRepeated(permuted)]);
         if after.installed != [] then again == after else again == Table([], permuted)
  {
    AlwaysInSync(parses, calls);
    var before := AfterCalls(parses, calls);
    var requested := calls + [HandleRepeated(schedules)];
    assert requested[..|requested| - 1] == calls;
    RequestIsInstalled(parses, before, schedules);
    var again := calls + [HandleRepeated(schedules), HandleRepeated(permuted)];
    assert again[..|again| - 1] == requested;
    var after := AfterCalls(parses, requested);
    if after.installed != [] {
      assert multiset(after.recorded) == multiset(schedules) by {
        if Keeps(before, schedules) {
          Pigeonhole(schedules, before.recorded);
        }
      }
      assert |permuted| == |multiset(permuted)| == |multiset(after.recorded)| == |after.recorded|;
      forall s | s in permuted
        ensures s in after.recorded
      {
        assert s in multiset(permuted);
      }
    } else {
      AcceptedOfPermutation(parses, permuted, schedules);
      assert |Accepted(parses, permuted)| == |multiset(Accepted(parses, permuted))| == |multiset(after.installed)|;
    }
  }

  /** For any request at all, the wrong jobs stay exactly when it is kept for a different set of valid schedules. */
  lemma WrongExactlyWhenKept(parses: CronParser, calls: seq<Call>, schedules: seq<RepeatedSchedule>)
    ensures
      var before := AfterCalls(parses, calls);
      multiset(AfterCall(parses, before, HandleRepeated(schedules)).installed) != multiset(Accepted(parses, schedules))
      <==> Keeps(before, schedules)
           && multiset(Accepted(parses, before.recorded)) != multiset(Accepted(parses, schedules))
  {
    AlwaysInSync(parses, calls);
    hide Accepted, AfterCalls;
  }

  /** With duplicates that does happen: installing [a, b] and then requesting [a, a] keeps b installed. */
  lemma DuplicatesKeepTheWrongJobs(parses: CronParser, a: RepeatedSchedule, b: RepeatedSchedule)
    requires a != b && Accepts(parses, a) && Accepts(parses, b)
    ensures AfterCalls(parses, [HandleRepeated([a, b]), HandleRepeated([a, a])]).installed == [a, b]
    ensures Accepted(parses, [a, a]) == [a, a]
  {
    assert [a, b][..1] == [a] && [a, a][..1] == [a] && [a][..0] == [];
    assert Accepted(parses, [a]) == [a];
    assert Accepted(parses, [a, b]) == [a, b];
    var first := [HandleRepeated([a, b])];
    assert first[..0] == [];
    assert AfterCalls(parses, first) == Table([a, b], [a, b]);
    var both := [HandleRepeated([a, b]), HandleRepeated([a, a])];
    assert both[..1] == first;
  }

  // ----- The main loop, which hands every request a copy of the Meta it read at startup -----

  /** The schedules installed after a series of requests that all compare with the same record. */
  function AfterRequests(parses: CronParser, atStartup: seq<RepeatedSchedule>,
                         requests: seq<seq<RepeatedSchedule>>): seq<RepeatedSchedule> {
    if requests == [] then []
    else
      var installed := AfterRequests(parses, atStartup, requests[..|requests| - 1]);
      AfterCall(parses, Table(installed, atStartup), HandleRepeated(requests[|requests| - 1])).installed
  }

  /** A response without schedules, which cleans up, leaves what a request for none would. */
  lemma CleanupIsAnEmptyRequest(parses: CronParser, installed: seq<RepeatedSchedule>, atStartup: seq<RepeatedSchedule>)
    ensures AfterCall(parses, Table(installed, atStartup), Cleanup).installed
         == AfterCall(parses, Table(installed, atStartup), HandleRepeated([])).installed
  {
  }

  /** What is installed is always the valid part of some request, or nothing. */
  lemma {:induction false} InstalledWasRequested(parses: CronParser, atStartup: seq<RepeatedSchedule>,
                                                 requests: seq<seq<RepeatedSchedule>>)
    ensures || AfterRequests(parses, atStartup, requests) == []
            || exists i :: 0 <= i < |requests| && AfterRequests(parses, atStartup, requests) == Accepted(parses, requests[i])
  {
    if requests != [] {
      var init := requests[..|requests| - 1];
      InstalledWasRequested(parses, atStartup, init);
      if i :| 0 <= i < |init| && AfterRequests(parses, atStartup, init) == Accepted(parses, init[i]) {
        assert init[i] == requests[i];
      }
    }
  }

  /**
   A request for the schedules on record at startup is taken for installed whatever is installed
   by then: with [a] on record, requesting [b] and then [a] leaves b.
   */
  lemma StartupRecordKeepsTheWrongJobs(parses: CronParser, a: RepeatedSchedule, b: RepeatedSchedule)
    requires a != b && Accepts(parses, a) && Accepts(parses, b)
    ensures AfterRequests(parses, [a], [[b], [a]]) == [b]
  {
    assert [[b], [a]][..1] == [[b]] && [[b]][..0] == [];
    assert [b][..0] == [] && Accepted(parses, [b]) == [b];
    assert Table([], [a]).installed == [] && !Keeps(Table([], [a]), [b]);
    assert AfterRequests(parses, [a], [[b]]) == [b];
  }

  /** A request without duplicates is taken for the startup record exactly when it is a permutation of it. */
  lemma KeptArePermutations(installed: seq<RepeatedSchedule>, atStartup: seq<RepeatedSchedule>,
                            schedules: seq<RepeatedSchedule>)
    requires NoDuplicates(schedules)
    ensures Keeps(Table(installed, atStartup), schedules)
            <==> installed != [] && schedules != [] && multiset(schedules) == multiset(atStartup)
  {
    if |schedules| == |atStartup| && forall s :: s in schedules ==> s in atStartup {
      Pigeonhole(schedules, atStartup);
    }
    if multiset(schedules) == multiset(atStartup) {
      assert |schedules| == |multiset(schedules)| == |multiset(atStartup)| == |atStartup|;
      assert forall s :: s in schedules ==> s in multiset(schedules);
    }
  }

  predicate Permutes(a: seq<RepeatedSchedule>, b: seq<RepeatedSchedule>) {
    multiset(a) == multiset(b)
  }

  /** One request in the main loop leaves the wrong jobs exactly when it repeats the record over different jobs. */
  lemma RequestIsLostExactlyWhen(parses: CronParser, atStartup: seq<RepeatedSchedule>,
                                 requests: seq<seq<RepeatedSchedule>>)
    requires requests != [] && NoDuplicates(requests[|requests| - 1])
    ensures
      var last := requests[|requests| - 1];
      var before := AfterRequests(parses, atStartup, requests[..|requests| - 1]);
      multiset(AfterRequests(parses, atStartup, requests)) != multiset(Accepted(parses, last))
      <==> before != [] && last != [] && Permutes(last, atStartup)
           && multiset(before) != multiset(Accepted(parses, atStartup))
  {
    var last := requests[|requests| - 1];
    var before := AfterRequests(parses, atStartup, requests[..|requests| - 1]);
    KeptArePermutations(before, atStartup, last);
    if Permutes(last, atStartup) {
      AcceptedOfPermutation(parses, last, atStartup);
    }
  }

  /** Request j differed from the startup record and all later ones before n repeat it. */
  predicate IsLastOther(atStartup: seq<RepeatedSchedule>, requests: seq<seq<RepeatedSchedule>>, j: nat, n: nat)
    requires j < n <= |requests|
  {
    !Permutes(requests[j], atStartup) && forall k :: j < k < n ==> Permutes(requests[k], atStartup)
  }

  lemma OtherRequestsAreInstalled(parses: CronParser, atStartup: seq<RepeatedSchedule>,
                                requests: seq<seq<RepeatedSchedule>>)
    requires requests != [] && NoDuplicates(requests[|requests| - 1]) && !Permutes(requests[|requests| - 1], atStartup)
    ensures AfterRequests(parses, atStartup, requests) == Accepted(parses, requests[|requests| - 1])
  {
    KeptArePermutations(AfterRequests(parses, atStartup, requests[..|requests| - 1]), atStartup, requests[|requests| - 1]);
  }

  lemma RepeatedRecordKeepsOrInstalls(parses: CronParser, atStartup: seq<RepeatedSchedule>,
                                      requests: seq<seq<RepeatedSchedule>>)
    requires requests != [] && NoDuplicates(requests[|requests| - 1]) && Permutes(requests[|requests| - 1], atStartup)
    requires atStartup != []
    ensures var before := AfterRequests(parses, atStartup, requests[..|requests| - 1]);
            var after := AfterRequests(parses, atStartup, requests);
            if before != [] then after == before else multiset(after) == multiset(Accepted(parses, atStartup))
  {
    var last := requests[|requests| - 1];
    KeptArePermutations(AfterRequests(parses, atStartup, requests[..|requests| - 1]), atStartup, last);
    AcceptedOfPermutation(parses, last, atStartup);
    assert |last| == |multiset(last)| == |multiset(atStartup)| == |atStartup|;
  }

  /** What is installed after the first n requests, up to order. */
  ghost function JobsAfter(parses: CronParser, atStartup: seq<RepeatedSchedule>,
                           requests: seq<seq<RepeatedSchedule>>, n: nat): multiset<RepeatedSchedule>
    requires n <= |requests|
  {
    multiset(AfterRequests(parses, atStartup, requests[..n]))
  }

  /** The last request that differed from the record has its valid part installed, or the record's if that is empty. */
  lemma {:induction false} InstalledByLastOther(parses: CronParser, atStartup: seq<RepeatedSchedule>,
                                                requests: seq<seq<RepeatedSchedule>>, j: nat, n: nat)
    requires forall i :: 0 <= i < |requests| ==> NoDuplicates(requests[i])
    requires j < n <= |requests| && IsLastOther(atStartup, requests, j, n) && atStartup != []
    ensures var valid := multiset(Accepted(parses, requests[j]));
            var jobs := JobsAfter(parses, atStartup, requests, n);
            jobs == valid || (valid == multiset{} && jobs == multiset(Accepted(parses, atStartup)))
    decreases n
  {
    hide Accepted, AfterRequests, Permutes;
    assert requests[..n][..n - 1] == requests[..n - 1] && requests[..n][n - 1] == requests[n - 1];
    if n == j + 1 {
      OtherRequestsAreInstalled(parses, atStartup, requests[..n]);
    } else {
      InstalledByLastOther(parses, atStartup, requests, j, n - 1);
      RepeatedRecordKeepsOrInstalls(parses, atStartup, requests[..n]);
    }
  }

  lemma {:induction false} InstalledWithoutOther(parses: CronParser, atStartup: seq<RepeatedSchedule>,
                                                 requests: seq<seq<RepeatedSchedule>>, n: nat)
    requires forall i :: 0 <= i < |requests| ==> NoDuplicates(requests[i])
    requires n <= |requests| && (forall k :: 0 <= k < n ==> Permutes(requests[k], atStartup)) && atStartup != []
    ensures JobsAfter(parses, atStartup, requests, n) in {multiset{}, multiset(Accepted(parses, atStartup))}
    decreases n
  {
    if n > 0 {
      hide Accepted, AfterRequests, Permutes;
      assert requests[..n][..n - 1] == requests[..n - 1] && requests[..n][n - 1] == requests[n - 1];
      InstalledWithoutOther(parses, atStartup, requests, n - 1);
      RepeatedRecordKeepsOrInstalls(parses, atStartup, requests[..n]);
    }
  }

  /** The last request before n that differed from the startup record had valid schedules, other than the record's. */
  ghost predicate OtherJobsPersist(parses: CronParser, atStartup: seq<RepeatedSchedule>,
                                   requests: seq<seq<RepeatedSchedule>>, n: nat)
    requires n <= |requests|
  {
    exists j :: 0 <= j < n && IsLastOther(atStartup, requests, j, n) && Accepted(parses, requests[j]) != []
                && multiset(Accepted(parses, requests[j])) != multiset(Accepted(parses, atStartup))
  }

  lemma WrongJobsAreTheOthers(parses: CronParser, atStartup: seq<RepeatedSchedule>,
                              requests: seq<seq<RepeatedSchedule>>, n: nat)
    requires forall i :: 0 <= i < |requests| ==> NoDuplicates(requests[i])
    requires n <= |requests| && atStartup != []
    ensures JobsAfter(parses, atStartup, requests, n) !in {multiset{}, multiset(Accepted(parses, atStartup))}
            <==> OtherJobsPersist(parses, atStartup, requests, n)
  {
    LastOtherExists(atStartup, requests, n);
    hide Accepted, JobsAfter, Permutes;
    if j :| 0 <= j < n && IsLastOther(atStartup, requests, j, n) {
      InstalledByLastOther(parses, atStartup, requests, j, n);
      forall k | 0 <= k < n && IsLastOther(atStartup, requests, k, n)
        ensures k == j
      {
      }
      EmptyMultiset(Accepted(parses, requests[j]));
    } else {
      InstalledWithoutOther(parses, atStartup, requests, n);
    }
  }

  lemma EmptyMultiset<T>(s: seq<T>)
    ensures multiset(s) == multiset{} <==> s == []
  {
    assert |multiset(s)| == |s|;
  }

  /**
   The main loop, resolved: among requests without duplicates, the last one is lost if and only if
   it repeats the startup record and the last request before it that did not had valid schedules,
   other than those of the record.
   */
  lemma MainLoopLosesRequestsExactlyWhen(parses: CronParser, atStartup: seq<RepeatedSchedule>,
                                         requests: seq<seq<RepeatedSchedule>>)
    requires requests != [] && forall i :: 0 <= i < |requests| ==> NoDuplicates(requests[i])
    ensures
      var n := |requests| - 1;
      multiset(AfterRequests(parses, atStartup, requests)) != multiset(Accepted(parses, requests[n]))
      <==> requests[n] != [] && Permutes(requests[n], atStartup)
           && OtherJobsPersist(parses, atStartup, requests, n)
  {
    var n := |requests| - 1;
    RequestIsLostExactlyWhen(parses, atStartup, requests);
    if requests[n] != [] && Permutes(requests[n], atStartup) {
      EmptyMultiset(requests[n]);
      EmptyMultiset(atStartup);
      EmptyMultiset(AfterRequests(parses, atStartup, requests[..n]));
      hide Accepted, AfterRequests, OtherJobsPersist;
      WrongJobsAreTheOthers(parses, atStartup, requests, n);
    }
  }

  lemma {:induction false} LastOtherExists(atStartup: seq<RepeatedSchedule>, requests: seq<seq<RepeatedSchedule>>, n: nat)
    requires n <= |requests|
    ensures (forall k :: 0 <= k < n ==> Permutes(requests[k], atStartup))
            || exists j :: 0 <= j < n && IsLastOther(atStartup, requests, j, n)
    decreases n
  {
    hide Permutes;
    if n > 0 {
      var m := n - 1;
      LastOtherExists(atStartup, requests, m);
      if !Permutes(requests[m], atStartup) {
        assert IsLastOther(atStartup, requests, m, n);
      } else if j :| 0 <= j < m && IsLastOther(atStartup, requests, j, m) {
        assert IsLastOther(atStartup, requests, j, n);
      }
    }
  }

  // ----- The scheduler object -----

  datatype Work = Repeated(schedule: RepeatedSchedule) | Single(start: int, end: int)

  datatype Job = Job(id: nat, work: Work)

  function RepeatedOf(jobs: seq<Job>): seq<RepeatedSchedule> {
    if jobs == [] then []
    else RepeatedOf(jobs[..|jobs| - 1])
         + (if jobs[|jobs| - 1].work.Repeated? then [jobs[|jobs| - 1].work.schedule] else [])
  }

  function WithTag(jobs: seq<Job>, repeated: bool): seq<Job> {
    if jobs == [] then []
    else WithTag(jobs[..|jobs| - 1], repeated)
         + (if jobs[|jobs| - 1].work.Repeated? == repeated then [jobs[|jobs| - 1]] else [])
  }

  function SinglesOf(jobs: seq<Job>): seq<Job> {
    WithTag(jobs, false)
  }

  lemma AppendJob(jobs: seq<Job>, job: Job)
    ensures RepeatedOf(jobs + [job]) == RepeatedOf(jobs) + (if job.work.Repeated? then [job.work.schedule] else [])
    ensures SinglesOf(jobs + [job]) == SinglesOf(jobs) + (if job.work.Single? then [job] else [])
  {
  }

  lemma {:induction false} TagsPartition(jobs: seq<Job>)
    ensures RepeatedOf(WithTag(jobs, true)) == RepeatedOf(jobs) && SinglesOf(WithTag(jobs, true)) == []
    ensures RepeatedOf(SinglesOf(jobs)) == [] && SinglesOf(SinglesOf(jobs)) == SinglesOf(jobs)
    ensures WithTag(jobs, true) == [] <==> RepeatedOf(jobs) == []
  {
    if jobs != [] {
      var init, last := jobs[..|jobs| - 1], jobs[|jobs| - 1];
      TagsPartition(init);
      AppendJob(WithTag(init, true), last);
      AppendJob(WithTag(init, false), last);
      assert WithTag(jobs, last.work.Repeated?) == WithTag(init, last.work.Repeated?) + [last];
      assert WithTag(jobs, !last.work.Repeated?) == WithTag(init, !last.work.Repeated?);
    }
  }

  class Meta {
    var repeatedSchedules: seq<RepeatedSchedule>
    var singleSchedule: Option<SingleSchedule>
    var singleScheduleFinished: bool

    constructor ()
      ensures repeatedSchedules == [] && singleSchedule.None? && !singleScheduleFinished
    {
      repeatedSchedules, singleSchedule, singleScheduleFinished := [], None, false;
    }
  }

  class PuaScheduler {
    const parses: CronParser
    var jobs: seq<Job>
    var nextJob: nat

    constructor (parses: CronParser)
      ensures jobs == [] && this.parses == parses
    {
      this.parses, jobs, nextJob := parses, [], 0;
    }

    /** The repeated schedules as the specification sees them. */
    function View(meta: Meta): Table
      reads this, meta
    {
      Table(RepeatedOf(jobs), meta.repeatedSchedules)
    }

    method RemoveByTag(repeated: bool)
      modifies this`jobs
      ensures RepeatedOf(jobs) == if repeated then [] else RepeatedOf(old(jobs))
      ensures SinglesOf(jobs) == if repeated then SinglesOf(old(jobs)) else []
    {
      TagsPartition(jobs);
      jobs := WithTag(jobs, !repeated);
    }

    /** An invalid cron text adds no job. */
    method ScheduleRepeatedSchedule(schedule: RepeatedSchedule)
      modifies this
      ensures RepeatedOf(jobs) == RepeatedOf(old(jobs)) + (if Accepts(parses, schedule) then [schedule] else [])
      ensures SinglesOf(jobs) == SinglesOf(old(jobs))
    {
      if parses(CronScheduleToString(schedule)) {
        AppendJob(jobs, Job(nextJob, Repeated(schedule)));
        jobs, nextJob := jobs + [Job(nextJob, Repeated(schedule))], nextJob + 1;
      }
    }

    /** The inner loop: is the schedule among those on record? */
    method IsRecorded(schedule: RepeatedSchedule, meta: Meta) returns (known: bool)
      ensures known <==> schedule in meta.repeatedSchedules
    {
      known := false;
      for i := 0 to |meta.repeatedSchedules|
        invariant !known && schedule !in meta.repeatedSchedules[..i]
      {
        if schedule == meta.repeatedSchedules[i] {
          return true;
        }
      }
    }

    /** The outer loop; its flag ends as the last schedule looked at left it. */
    method AllRecorded(schedules: seq<RepeatedSchedule>, meta: Meta) returns (allKnown: bool)
      ensures allKnown <==> schedules != [] && forall s :: s in schedules ==> s in meta.repeatedSchedules
    {
      allKnown := false;
      for i := 0 to |schedules|
        invariant allKnown <==> i > 0
        invariant forall k :: 0 <= k < i ==> schedules[k] in meta.repeatedSchedules
      {
        allKnown := IsRecorded(schedules[i], meta);
        if !allKnown {
          return;
        }
      }
    }

    /** The rebuilding loop: one job per valid schedule, every schedule recorded. */
    method Install(schedules: seq<RepeatedSchedule>, meta: Meta)
      requires RepeatedOf(jobs) == []
      modifies this, meta`repeatedSchedules
      ensures RepeatedOf(jobs) == Accepted(parses, schedules) && SinglesOf(jobs) == SinglesOf(old(jobs))
      ensures meta.repeatedSchedules == schedules
    {
      meta.repeatedSchedules := [];
      for i := 0 to |schedules|
        invariant meta.repeatedSchedules == schedules[..i]
        invariant RepeatedOf(jobs) == Accepted(parses, schedules[..i])
        invariant SinglesOf(jobs) == SinglesOf(old(jobs))
      {
        ScheduleRepeatedSchedule(schedules[i]);
        meta.repeatedSchedules := meta.repeatedSchedules + [schedules[i]];
        assert schedules[..i + 1][..i] == schedules[..i];
      }
      assert schedules[..|schedules|] == schedules;
    }

    method HandleRepeatedSchedule(schedules: seq<RepeatedSchedule>, meta: Meta)
      modifies this, meta`repeatedSchedules
      ensures View(meta) == AfterCall(parses, old(View(meta)), HandleRepeated(schedules))
      ensures SinglesOf(jobs) == SinglesOf(old(jobs))
      ensures Keeps(old(View(meta)), schedules) ==> jobs == old(jobs)
    {
      TagsPartition(jobs);
      var installed := WithTag(jobs, true);
      if |schedules| == 0 {
        RemoveByTag(true);
      }
      var found := false;
      if |installed| != 0 && |schedules| == |meta.repeatedSchedules| {
        found := AllRecorded(schedules, meta);
      }
      if !found {
        if |installed| != 0 {
          RemoveByTag(true);
        }
        Install(schedules, meta);
      }
    }

    /** scheduleSingleRun: replaces any single job, unless the start has passed. */
    method ScheduleSingleRun(schedule: SingleSchedule, now: int)
      modifies this
      ensures RepeatedOf(jobs) == RepeatedOf(old(jobs))
      ensures match PuaWindow.SingleRun(schedule.startSeconds, schedule.endSeconds, now)
              case None => SinglesOf(jobs) == []
              case Some((start, end)) => SinglesOf(jobs) == [Job(old(nextJob), Single(start, end))]
    {
      RemoveByTag(false);
      var window := PuaWindow.SingleRun(schedule.startSeconds, schedule.endSeconds, now);
      if window.Some? {
        var job := Job(nextJob, Single(window.value.0, window.value.1));
        AppendJob(jobs, job);
        jobs, nextJob := jobs + [job], nextJob + 1;
      }
    }

    /**
     HandleSingleSchedule; finished says whether the present single job has run. There is never
     more than one single job, and the repeated jobs are left alone.
     */
    method HandleSingleSchedule(schedule: Option<SingleSchedule>, meta: Meta, now: int, finished: bool)
      requires |SinglesOf(jobs)| <= 1
      modifies this, meta
      ensures |SinglesOf(jobs)| <= 1 && View(meta) == old(View(meta))
      ensures schedule.None? ==> SinglesOf(jobs) == [] && meta.singleScheduleFinished
      ensures schedule.Some? && old(meta.singleSchedule == schedule && meta.singleScheduleFinished) ==>
                jobs == old(jobs) && meta.singleScheduleFinished
      ensures schedule.Some? && !old(meta.singleSchedule == schedule && meta.singleScheduleFinished) ==>
                if SinglesOf(old(jobs)) == [] then
                  meta.singleSchedule == schedule && !meta.singleScheduleFinished
                  && match PuaWindow.SingleRun(schedule.value.startSeconds, schedule.value.endSeconds, now)
                     case None => SinglesOf(jobs) == []
                     case Some((start, end)) => SinglesOf(jobs) == [Job(old(nextJob), Single(start, end))]
                else
                  jobs == old(jobs) && meta.singleSchedule == old(meta.singleSchedule)
                  && meta.singleScheduleFinished == (finished || old(meta.singleScheduleFinished))
    {
      match schedule {
        case None =>
          RemoveByTag(false);
          meta.singleScheduleFinished := true;
        case Some(requested) =>
          if meta.singleSchedule != schedule || !meta.singleScheduleFinished {
            TagsPartition(jobs);
            var singles := WithTag(jobs, false);
            if |singles| == 0 {
              ScheduleSingleRun(requested, now);
              meta.singleSchedule, meta.singleScheduleFinished := schedule, false;
            } else if finished {
              meta.singleScheduleFinished := true;
            }
          }
      }
    }

    method CleanupSchedule(meta: Meta)
      modifies this`jobs
      ensures RepeatedOf(jobs) == [] && SinglesOf(jobs) == []
      ensures View(meta) == AfterCall(parses, old(View(meta)), Cleanup)
    {
      RemoveByTag(false);
      RemoveByTag(true);
    }
  }
}
