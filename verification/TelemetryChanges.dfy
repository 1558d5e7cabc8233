/**
 How the telemetry agent finds out which of its four configuration groups changed: every
 received configuration is compared with the previous one and with the list of groups in it.
 */
module TelemetryChanges {
  import opened Wrappers

  datatype CollectorKind = KindUnspecified | Host | Cluster
  datatype ResourceKind = ResourceUnspecified | Metrics | Logs

  datatype Entry = Entry(input: string, interval: int, level: int, kind: CollectorKind, resource: ResourceKind)

  type Config = seq<Entry>

  datatype ProfileGroup = ProfileGroup(collectorKind: CollectorKind, resourceKind: ResourceKind)

  const METRIC_HOST := 0
  const METRIC_CLUSTER := 1
  const LOG_HOST := 2
  const LOG_CLUSTER := 3

  /** getMaskIdx: whatever is not one of the first three groups counts as the fourth. */
  function MaskIdx(p: ProfileGroup): (g: nat)
    ensures g < 4
  {
    if p == ProfileGroup(Host, Metrics) then METRIC_HOST
    else if p == ProfileGroup(Cluster, Metrics) then METRIC_CLUSTER
    else if p == ProfileGroup(Host, Logs) then LOG_HOST
    else LOG_CLUSTER
  }

  /** Metrics come before logs and host before cluster; a pair with an unspecified part counts as cluster logs. */
  lemma MaskIdxNumbersTheGroups(kind: CollectorKind, resource: ResourceKind)
    ensures MaskIdx(ProfileGroup(kind, resource))
         == if kind.KindUnspecified? || resource.ResourceUnspecified? then 3
            else (if resource.Metrics? then 0 else 2) + (if kind.Host? then 0 else 1)
  {
  }

  function ConvertConfig(e: Entry): ProfileGroup {
    ProfileGroup(e.kind, e.resource)
  }

  function GroupOf(e: Entry): nat {
    MaskIdx(ConvertConfig(e))
  }

  type Mask = m: seq<bool> | |m| == 4 witness [false, false, false, false]

  const CLEAN: Mask := [false, false, false, false]

  // ----- What the comparison finds -----

  predicate SameSetting(a: Entry, b: Entry) {
    a.input == b.input && a.interval == b.interval && a.level == b.level
  }

  predicate Altered(e: Entry, previous: Config) {
    forall p :: p in previous ==> !SameSetting(e, p)
  }

  predicate Dropped(p: Entry, latest: Config) {
    forall e :: e in latest ==> e.input != p.input
  }

  function Profiles(cfg: Config): seq<ProfileGroup> {
    if cfg == [] then [] else Profiles(cfg[..|cfg| - 1]) + [ConvertConfig(cfg[|cfg| - 1])]
  }

  /** The first occurrence of every element, in order. */
  function Distinct<T(==)>(s: seq<T>): seq<T> {
    if s == [] then []
    else
      var rest := Distinct(s[..|s| - 1]);
      if s[|s| - 1] in rest then rest else rest + [s[|s| - 1]]
  }

  lemma {:induction false} DistinctIsASet<T>(s: seq<T>)
    ensures forall x :: x in Distinct(s) <==> x in s
    ensures forall i, j :: 0 <= i < j < |Distinct(s)| ==> Distinct(s)[i] != Distinct(s)[j]
  {
    if s != [] {
      DistinctIsASet(s[..|s| - 1]);
      assert s == s[..|s| - 1] + [s[|s| - 1]];
    }
  }

  /** The distinct elements come in the order in which they first occur. */
  lemma {:induction false} DistinctKeepsOrder<T>(s: seq<T>) returns (firsts: seq<nat>)
    ensures |firsts| == |Distinct(s)| && (forall k, l :: 0 <= k < l < |firsts| ==> firsts[k] < firsts[l])
    ensures forall k :: 0 <= k < |firsts| ==>
              firsts[k] < |s| && s[firsts[k]] == Distinct(s)[k] && s[firsts[k]] !in s[..firsts[k]]
  {
    firsts := [];
    if s != [] {
      var init, n := s[..|s| - 1], |s| - 1;
      firsts := DistinctKeepsOrder(init);
      DistinctIsASet(init);
      assert forall i :: 0 <= i <= n ==> s[..i] == init[..i];
      assert s[..n] == init;
      if s[n] !in Distinct(init) {
        firsts := firsts + [n];
      }
    }
  }

  lemma {:induction false} ProfilesOf(cfg: Config, p: ProfileGroup)
    ensures p in Profiles(cfg) <==> exists e :: e in cfg && ConvertConfig(e) == p
  {
    if cfg != [] {
      ProfilesOf(cfg[..|cfg| - 1], p);
      assert cfg == cfg[..|cfg| - 1] + [cfg[|cfg| - 1]];
    }
  }

  predicate GoesEmpty(profile: seq<ProfileGroup>, latest: Config, g: nat) {
    exists p :: p in profile && p !in Profiles(latest) && MaskIdx(p) == g
  }

  predicate HasAltered(previous: Config, latest: Config, g: nat) {
    exists e :: e in latest && Altered(e, previous) && GroupOf(e) == g
  }

  predicate HasDropped(previous: Config, latest: Config, g: nat) {
    exists p :: p in previous && Dropped(p, latest) && GroupOf(p) == g
  }

  predicate IsDirty(previous: Config, profile: seq<ProfileGroup>, latest: Config, g: nat) {
    HasAltered(previous, latest, g) || HasDropped(previous, latest, g) || GoesEmpty(profile, latest, g)
  }

  // ----- What it means -----

  /** The settings of one group, regardless of their order. */
  ghost function Settings(cfg: Config, g: nat): set<(string, int, int)> {
    set e | e in cfg && GroupOf(e) == g :: (e.input, e.interval, e.level)
  }

  predicate UniqueInputs(cfg: Config) {
    forall i, j :: 0 <= i < j < |cfg| ==> cfg[i].input != cfg[j].input
  }

  /** An Input present before and after stays in its group. */
  predicate KeepsGroups(previous: Config, latest: Config) {
    forall p, e :: p in previous && e in latest && p.input == e.input ==> GroupOf(p) == GroupOf(e)
  }

  /** Some Input was in the group and is now in another one, or the other way round. */
  predicate Moved(previous: Config, latest: Config, g: nat) {
    exists p, e :: p in previous && e in latest && p.input == e.input && (GroupOf(p) == g) != (GroupOf(e) == g)
  }

  /** Only the four pairs of kind and type that have a group of their own. */
  predicate Proper(cfg: Config) {
    forall e :: e in cfg ==> !e.kind.KindUnspecified? && !e.resource.ResourceUnspecified?
  }

  /** Two entries of one group with the same setting are the same entry. */
  lemma SettingDeterminesEntry(a: Entry, b: Entry)
    requires SameSetting(a, b) && GroupOf(a) == GroupOf(b) && Proper([a, b])
    ensures a == b
  {
  }

  lemma DirtySettingsDiffer(previous: Config, latest: Config, g: nat)
    requires Proper(previous) && Proper(latest)
    requires IsDirty(previous, Distinct(Profiles(previous)), latest, g)
    ensures Settings(previous, g) != Settings(latest, g)
  {
    if HasAltered(previous, latest, g) {
      var e :| e in latest && Altered(e, previous) && GroupOf(e) == g;
      assert (e.input, e.interval, e.level) in Settings(latest, g);
      assert (e.input, e.interval, e.level) !in Settings(previous, g);
    } else if HasDropped(previous, latest, g) {
      var p :| p in previous && Dropped(p, latest) && GroupOf(p) == g;
      assert (p.input, p.interval, p.level) in Settings(previous, g);
      assert (p.input, p.interval, p.level) !in Settings(latest, g);
    } else {
      InitMeansEmptied(previous, latest, g);
    }
  }

  lemma EmptySettings(cfg: Config, g: nat)
    ensures Settings(cfg, g) == {} <==> forall e :: e in cfg ==> GroupOf(e) != g
  {
    if e :| e in cfg && GroupOf(e) == g {
      assert (e.input, e.interval, e.level) in Settings(cfg, g);
    }
  }

  lemma InitMeansEmptied(previous: Config, latest: Config, g: nat)
    requires Proper(previous) && Proper(latest)
    ensures GoesEmpty(Distinct(Profiles(previous)), latest, g)
            <==> Settings(previous, g) != {} && Settings(latest, g) == {}
  {
    DistinctIsASet(Profiles(previous));
    EmptySettings(previous, g);
    EmptySettings(latest, g);
    hide Profiles, Distinct, Settings;
    forall p
      ensures p in Profiles(previous) <==> exists e :: e in previous && ConvertConfig(e) == p
      ensures p in Profiles(latest) <==> exists e :: e in latest && ConvertConfig(e) == p
    {
      ProfilesOf(previous, p);
      ProfilesOf(latest, p);
    }
    if Settings(previous, g) != {} && Settings(latest, g) == {} {
      var e :| e in previous && GroupOf(e) == g;
      assert ConvertConfig(e) in Profiles(previous) && ConvertConfig(e) !in Profiles(latest);
    }
  }

  lemma NewSettingIsAltered(previous: Config, latest: Config, g: nat, e: Entry)
    requires !Moved(previous, latest, g)
    requires e in latest && GroupOf(e) == g && (e.input, e.interval, e.level) !in Settings(previous, g)
    ensures HasAltered(previous, latest, g)
  {
    forall p | p in previous
      ensures !SameSetting(e, p)
    {
      assert GroupOf(p) == g ==> (p.input, p.interval, p.level) in Settings(previous, g);
    }
    assert Altered(e, previous);
  }

  lemma LostSettingIsDroppedOrAltered(previous: Config, latest: Config, g: nat, p: Entry)
    requires !Moved(previous, latest, g) && UniqueInputs(previous)
    requires p in previous && GroupOf(p) == g && (p.input, p.interval, p.level) !in Settings(latest, g)
    ensures HasAltered(previous, latest, g) || HasDropped(previous, latest, g)
  {
    if e :| e in latest && e.input == p.input {
      assert (e.input, e.interval, e.level) in Settings(latest, g);
      forall q | q in previous
        ensures !SameSetting(e, q)
      {
        assert q.input == p.input ==> q == p;
      }
      assert Altered(e, previous);
    } else {
      assert Dropped(p, latest);
    }
  }

  lemma DifferentSettingsAreDirty(previous: Config, latest: Config, g: nat)
    requires UniqueInputs(previous) && !Moved(previous, latest, g)
    requires Settings(previous, g) != Settings(latest, g)
    ensures HasAltered(previous, latest, g) || HasDropped(previous, latest, g)
  {
    if s :| s in Settings(latest, g) && s !in Settings(previous, g) {
      var e :| e in latest && GroupOf(e) == g && s == (e.input, e.interval, e.level);
      NewSettingIsAltered(previous, latest, g, e);
    } else {
      var s :| s in Settings(previous, g) && s !in Settings(latest, g);
      var p :| p in previous && GroupOf(p) == g && s == (p.input, p.interval, p.level);
      LostSettingIsDroppedOrAltered(previous, latest, g, p);
    }
  }

  /**
   Provided Inputs were unique before and none moved into or out of a group, the group is dirty
   exactly when its settings differ as a set from the previous call's, and marked for
   initialisation exactly when it had entries and now has none.
   */
  lemma MasksAreExact(previous: Config, latest: Config, g: nat)
    requires Proper(previous) && Proper(latest) && UniqueInputs(previous) && !Moved(previous, latest, g)
    ensures IsDirty(previous, Distinct(Profiles(previous)), latest, g) <==> Settings(previous, g) != Settings(latest, g)
    ensures GoesEmpty(Distinct(Profiles(previous)), latest, g)
            <==> Settings(previous, g) != {} && Settings(latest, g) == {}
  {
    InitMeansEmptied(previous, latest, g);
    if Settings(previous, g) != Settings(latest, g) {
      DifferentSettingsAreDirty(previous, latest, g);
    } else if IsDirty(previous, Distinct(Profiles(previous)), latest, g) {
      DirtySettingsDiffer(previous, latest, g);
    }
  }

  /** Without any assumption, a repeated configuration marks nothing. */
  lemma RepeatIsClean(cfg: Config, g: nat)
    ensures !IsDirty(cfg, Distinct(Profiles(cfg)), cfg, g)
  {
  }

  // ----- When a change goes unnoticed -----

  lemma MovedSettingsDiffer(previous: Config, latest: Config, g: nat)
    requires UniqueInputs(previous) && UniqueInputs(latest) && Moved(previous, latest, g)
    ensures Settings(previous, g) != Settings(latest, g)
  {
    var p, e :| p in previous && e in latest && p.input == e.input && (GroupOf(p) == g) != (GroupOf(e) == g);
    if GroupOf(p) == g {
      assert (p.input, p.interval, p.level) in Settings(previous, g);
      assert (p.input, p.interval, p.level) !in Settings(latest, g);
    } else {
      assert (e.input, e.interval, e.level) in Settings(latest, g);
      assert (e.input, e.interval, e.level) !in Settings(previous, g);
    }
  }

  /**
   A change of a group's settings goes unnoticed if and only if an Input moved into or out of the
   group, every present entry of the group has an earlier one with its setting somewhere, every
   earlier entry's Input is still there somewhere, and the group has not become empty.
   */
  lemma ChangeGoesUnnoticedExactlyWhen(previous: Config, latest: Config, g: nat)
    requires Proper(previous) && Proper(latest) && UniqueInputs(previous) && UniqueInputs(latest)
    ensures
      Settings(previous, g) != Settings(latest, g) && !IsDirty(previous, Distinct(Profiles(previous)), latest, g)
      <==>
        && Moved(previous, latest, g)
        && (forall e :: e in latest && GroupOf(e) == g ==> exists p :: p in previous && SameSetting(e, p))
        && (forall p :: p in previous && GroupOf(p) == g ==> exists e :: e in latest && e.input == p.input)
        && ((exists p :: p in previous && GroupOf(p) == g) ==> exists e :: e in latest && GroupOf(e) == g)
  {
    InitMeansEmptied(previous, latest, g);
    EmptySettings(previous, g);
    EmptySettings(latest, g);
    if Moved(previous, latest, g) {
      MovedSettingsDiffer(previous, latest, g);
    }
    hide Settings, Profiles, Distinct, GoesEmpty, Moved, UniqueInputs, Proper;
    if Settings(previous, g) != Settings(latest, g) && !Moved(previous, latest, g) {
      DifferentSettingsAreDirty(previous, latest, g);
    }
  }

  const CPU := Entry("cpu", 1, 0, Host, Metrics)
  const PODS := Entry("pods", 1, 0, Cluster, Metrics)
  const DISK := Entry("disk", 1, 0, Host, Metrics)
  const MOVED_DISK := Entry("disk", 1, 0, Cluster, Metrics)
  const BEFORE := [CPU, PODS, DISK]
  const AFTER := [CPU, PODS, MOVED_DISK]

  lemma MembersOfExample()
    ensures forall e :: e in BEFORE <==> e == CPU || e == PODS || e == DISK
    ensures forall e :: e in AFTER <==> e == CPU || e == PODS || e == MOVED_DISK
  {
    assert BEFORE[0] == CPU && BEFORE[1] == PODS && BEFORE[2] == DISK;
    assert AFTER[0] == CPU && AFTER[1] == PODS && AFTER[2] == MOVED_DISK;
  }

  lemma ExampleSettings()
    ensures ("disk", 1, 0) in Settings(BEFORE, METRIC_HOST)
    ensures ("disk", 1, 0) !in Settings(AFTER, METRIC_HOST)
  {
    MembersOfExample();
    assert GroupOf(DISK) == METRIC_HOST && GroupOf(MOVED_DISK) == METRIC_CLUSTER;
    assert "cpu"[0] != "disk"[0];
  }

  /**
   Such changes exist: a disk Input that moves from the host to the cluster metrics, while both
   groups keep other entries, is not noticed in any group.
   */
  lemma MovedInputGoesUnnoticed(g: nat)
    ensures ("disk", 1, 0) in Settings(BEFORE, METRIC_HOST) - Settings(AFTER, METRIC_HOST)
    ensures !IsDirty(BEFORE, Distinct(Profiles(BEFORE)), AFTER, g)
  {
    ExampleSettings();
    MembersOfExample();
    InitMeansEmptied(BEFORE, AFTER, g);
    EmptySettings(BEFORE, g);
    EmptySettings(AFTER, g);
    hide Settings, Profiles, Distinct, GoesEmpty;
    assert SameSetting(CPU, CPU) && SameSetting(PODS, PODS) && SameSetting(MOVED_DISK, DISK);
    assert GroupOf(CPU) == GroupOf(DISK) && GroupOf(PODS) == GroupOf(MOVED_DISK);
  }

  // ----- The code -----

  class ChangeDetector {
    var lastResp: Option<Config>
    var lastProfile: seq<ProfileGroup>

    constructor ()
      ensures Valid() && Previous() == []
    {
      lastResp, lastProfile := None, [];
    }

    function Previous(): Config
      reads this
    {
      if lastResp.Some? then lastResp.value else []
    }

    /** The profile is the duplicate-free group list of the last response. */
    ghost predicate Valid()
      reads this
    {
      lastProfile == Distinct(Profiles(Previous()))
    }

    method HasSetting(e: Entry, cfg: Config) returns (found: bool)
      ensures found <==> !Altered(e, cfg)
    {
      found := false;
      for i := 0 to |cfg|
        invariant !found && forall k :: 0 <= k < i ==> !SameSetting(e, cfg[k])
      {
        if SameSetting(e, cfg[i]) {
          return true;
        }
      }
    }

    method MarkAltered(previous: Config, latest: Config, before: Mask) returns (dirty: Mask)
      ensures forall g :: 0 <= g < 4 ==> (dirty[g] <==> before[g] || HasAltered(previous, latest, g))
    {
      dirty := before;
      for i := 0 to |latest|
        invariant forall g :: 0 <= g < 4 ==> (dirty[g] <==> before[g] || HasAltered(previous, latest[..i], g))
      {
        var known := HasSetting(latest[i], previous);
        if !known {
          dirty := dirty[GroupOf(latest[i]) := true];
        }
        assert latest[..i + 1] == latest[..i] + [latest[i]];
      }
      assert latest[..|latest|] == latest;
    }

    method MarkDropped(previous: Config, latest: Config, before: Mask) returns (dirty: Mask)
      ensures forall g :: 0 <= g < 4 ==> (dirty[g] <==> before[g] || HasDropped(previous, latest, g))
    {
      dirty := before;
      for i := 0 to |previous|
        invariant forall g :: 0 <= g < 4 ==> (dirty[g] <==> before[g] || HasDropped(previous[..i], latest, g))
      {
        var isRemoved := true;
        for j := 0 to |latest|
          invariant isRemoved <==> forall k :: 0 <= k < j ==> latest[k].input != previous[i].input
        {
          if latest[j].input == previous[i].input {
            isRemoved := false;
          }
        }
        assert isRemoved <==> Dropped(previous[i], latest);
        if isRemoved {
          dirty := dirty[GroupOf(previous[i]) := true];
        }
        assert previous[..i + 1] == previous[..i] + [previous[i]];
      }
      assert previous[..|previous|] == previous;
    }

    method RemoveDuplicates(arr: seq<ProfileGroup>) returns (result: seq<ProfileGroup>)
      ensures result == Distinct(arr)
    {
      result := [];
      for i := 0 to |arr|
        invariant result == Distinct(arr[..i])
      {
        var seen := false;
        for j := 0 to |result|
          invariant !seen && arr[i] !in result[..j]
        {
          if arr[i] == result[j] {
            seen := true;
            break;
          }
        }
        assert seen <==> arr[i] in result;
        assert arr[..i + 1][..i] == arr[..i];
        if !seen {
          result := result + [arr[i]];
        }
      }
      assert arr[..|arr|] == arr;
    }

    method ProfileList(cfg: Config) returns (profiles: seq<ProfileGroup>)
      ensures profiles == Profiles(cfg)
    {
      profiles := [];
      for i := 0 to |cfg|
        invariant profiles == Profiles(cfg[..i])
      {
        profiles := profiles + [ConvertConfig(cfg[i])];
        assert cfg[..i + 1][..i] == cfg[..i];
      }
      assert cfg[..|cfg|] == cfg;
    }

    method MarkEmptied(newProfile: seq<ProfileGroup>, before: Mask) returns (init: Mask, dirty: Mask)
      ensures forall g :: 0 <= g < 4 ==>
                (init[g] <==> exists p :: p in lastProfile && p !in newProfile && MaskIdx(p) == g)
      ensures forall g :: 0 <= g < 4 ==> (dirty[g] <==> before[g] || init[g])
    {
      init, dirty := CLEAN, before;
      for i := 0 to |lastProfile|
        invariant forall g :: 0 <= g < 4 ==>
                    (init[g] <==> exists p :: p in lastProfile[..i] && p !in newProfile && MaskIdx(p) == g)
        invariant forall g :: 0 <= g < 4 ==> (dirty[g] <==> before[g] || init[g])
      {
        var isRemoved := true;
        for j := 0 to |newProfile|
          invariant isRemoved <==> lastProfile[i] !in newProfile[..j]
        {
          if newProfile[j] == lastProfile[i] {
            isRemoved := false;
          }
        }
        assert newProfile[..|newProfile|] == newProfile;
        if isRemoved {
          init := init[MaskIdx(lastProfile[i]) := true];
          dirty := dirty[MaskIdx(lastProfile[i]) := true];
        }
        assert lastProfile[..i + 1] == lastProfile[..i] + [lastProfile[i]];
      }
      assert lastProfile[..|lastProfile|] == lastProfile;
    }

    /** CheckIfChanged; a nil response changes nothing and marks nothing. */
    method CheckIfChanged(latest: Option<Config>) returns (dirty: Mask, init: Mask)
      requires Valid()
      modifies this
      ensures Valid()
      ensures latest.None? ==> dirty == init == CLEAN && lastResp == old(lastResp)
      ensures latest.Some? ==> lastResp == latest
      ensures latest.Some? ==> forall g :: 0 <= g < 4 ==>
                && (dirty[g] <==> IsDirty(old(Previous()), Distinct(Profiles(old(Previous()))), latest.value, g))
                && (init[g] <==> GoesEmpty(Distinct(Profiles(old(Previous()))), latest.value, g))
    {
      if latest.None? {
        return CLEAN, CLEAN;
      }
      var previous := Previous();
      dirty := MarkAltered(previous, latest.value, CLEAN);
      dirty := MarkDropped(previous, latest.value, dirty);
      var profileList := ProfileList(latest.value);
      var newProfile := RemoveDuplicates(profileList);
      DistinctIsASet(profileList);
      init, dirty := MarkEmptied(newProfile, dirty);
      lastProfile, lastResp := newProfile, latest;
    }
  }
}
