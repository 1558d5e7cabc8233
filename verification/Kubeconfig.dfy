/**
 The node agent's kubeconfig manager: notifications to the host manager are skipped when the
 hash of the kubeconfig has not changed. Hash and base64 are parameters; a call to the host
 manager that fails is one that was not applied, and the host manager starts empty.
 */
module Kubeconfig {
  import opened Wrappers

  type Bytes = seq<bv8>

  /** SHA-256 in hexadecimal, and base64. */
  datatype Codec = Codec(hash: Bytes -> string, encode: Bytes -> string)

  datatype Manager = Manager(last: Option<Bytes>, lastHash: string, host: string)

  datatype Error = NoClusterInfo | UpdateFailed

  const NEW := Manager(None, "", "")

  /** One call to the manager, with the outcome of the request to the host manager should there be one. */
  datatype Call = Notify(data: Bytes, hasInfo: bool, applied: bool) | Clear(applied: bool)

  function AfterCall(c: Codec, m: Manager, call: Call): (Manager, Option<Error>) {
    match call
    case Notify(data, hasInfo, applied) =>
      if !hasInfo then (m, Some(NoClusterInfo))
      else if m.lastHash == c.hash(data) then (m, None)
      else if !applied then (m, Some(UpdateFailed))
      else (Manager(Some(data), c.hash(data), c.encode(data)), None)
    case Clear(applied) =>
      if !applied then (m, Some(UpdateFailed)) else (NEW, None)
  }

  function AfterCalls(c: Codec, calls: seq<Call>): Manager {
    if calls == [] then NEW else AfterCall(c, AfterCalls(c, calls[..|calls| - 1]), calls[|calls| - 1]).0
  }

  /** Errors are those of a missing cluster, and of a request that was needed and not applied. */
  lemma ReportsExactly(c: Codec, m: Manager, data: Bytes, hasInfo: bool, applied: bool)
    requires Tracks(c, m) && CollisionFree(c)
    ensures AfterCall(c, m, Notify(data, hasInfo, applied)).1
         == if !hasInfo then Some(NoClusterInfo)
            else if m.last != Some(data) && !applied then Some(UpdateFailed) else None
    ensures AfterCall(c, m, Clear(applied)).1 == if applied then None else Some(UpdateFailed)
    ensures AfterCall(c, m, Notify(data, hasInfo, applied)).1.Some? ==>
              AfterCall(c, m, Notify(data, hasInfo, applied)).0 == m
    ensures !applied ==> AfterCall(c, m, Clear(applied)).0 == m
  {
  }

  /** A manager that sends every time: only what the host holds is left of it. */
  function HostIfAlwaysSent(c: Codec, calls: seq<Call>): string {
    if calls == [] then ""
    else
      var host := HostIfAlwaysSent(c, calls[..|calls| - 1]);
      match calls[|calls| - 1]
      case Notify(data, hasInfo, applied) => if hasInfo && applied then c.encode(data) else host
      case Clear(applied) => if applied then "" else host
  }

  /** The host holds what the manager believes it holds. */
  predicate Tracks(c: Codec, m: Manager) {
    match m.last
    case None => m.lastHash == "" && m.host == ""
    case Some(data) => m.lastHash == c.hash(data) && m.host == c.encode(data)
  }

  lemma {:induction false} ManagerTracksHost(c: Codec, calls: seq<Call>)
    ensures Tracks(c, AfterCalls(c, calls))
  {
    if calls != [] {
      ManagerTracksHost(c, calls[..|calls| - 1]);
    }
  }

  /** Different contents, different hashes; and a hash is never the empty text the manager starts with. */
  ghost predicate CollisionFree(c: Codec) {
    && (forall x, y :: c.hash(x) == c.hash(y) ==> x == y)
    && (forall x :: c.hash(x) != "")
  }

  /** Skipping unchanged contents is invisible to the host, whichever requests fail. */
  lemma {:induction false} SkippingIsInvisible(c: Codec, calls: seq<Call>)
    requires CollisionFree(c)
    ensures AfterCalls(c, calls).host == HostIfAlwaysSent(c, calls)
  {
    if calls != [] {
      var init := calls[..|calls| - 1];
      SkippingIsInvisible(c, init);
      ManagerTracksHost(c, init);
    }
  }

  /**
   For hashes that are never empty and a base64 that loses nothing, skipping is invisible over
   every sequence of calls exactly when no two contents share a hash.
   */
  lemma InvisibleExactlyWithoutCollisions(c: Codec)
    requires forall x :: c.hash(x) != ""
    requires forall x, y :: c.encode(x) == c.encode(y) ==> x == y
    ensures (forall calls :: AfterCalls(c, calls).host == HostIfAlwaysSent(c, calls)) <==> CollisionFree(c)
  {
    if CollisionFree(c) {
      forall calls
        ensures AfterCalls(c, calls).host == HostIfAlwaysSent(c, calls)
      {
        SkippingIsInvisible(c, calls);
      }
    } else {
      var x, y :| c.hash(x) == c.hash(y) && x != y;
      CollisionShows(c, x, y);
    }
  }

  /** Two contents with one hash: the second is never sent. */
  lemma CollisionShows(c: Codec, x: Bytes, y: Bytes)
    requires c.hash(x) == c.hash(y) && c.hash(x) != ""
    ensures var calls := [Notify(x, true, true), Notify(y, true, true)];
            AfterCalls(c, calls).host == c.encode(x) && HostIfAlwaysSent(c, calls) == c.encode(y)
  {
    var calls := [Notify(x, true, true), Notify(y, true, true)];
    assert calls[..1] == [calls[0]] && calls[..1][..0] == [];
    assert AfterCalls(c, calls[..1]) == Manager(Some(x), c.hash(x), c.encode(x));
    assert HostIfAlwaysSent(c, calls[..1]) == c.encode(x);
  }

  // ----- The detection cycle -----

  /** What one cycle finds on the node. */
  datatype Finding =
    | NoCluster
    | NotRunning
    | NoPath
    | Unreadable
    | Invalid
    | Running(data: Bytes)  // read and validated, hence not empty

  datatype Cycle = Cycle(found: Finding, applied: bool)

  /** Validation refuses empty contents. */
  predicate Validated(cycle: Cycle) {
    cycle.found.Running? ==> cycle.found.data != []
  }

  function CallOf(m: Manager, cycle: Cycle): Option<Call> {
    match cycle.found
    case NoCluster => if m.last.Some? && m.last.value != [] then Some(Clear(cycle.applied)) else None
    case Running(data) => Some(Notify(data, true, cycle.applied))
    case _ => None
  }

  function AfterCycle(c: Codec, m: Manager, cycle: Cycle): Manager {
    match CallOf(m, cycle)
    case None => m
    case Some(call) => AfterCall(c, m, call).0
  }

  function AfterCycles(c: Codec, cycles: seq<Cycle>): Manager {
    if cycles == [] then NEW else AfterCycle(c, AfterCycles(c, cycles[..|cycles| - 1]), cycles[|cycles| - 1])
  }

  /** What the host ought to hold: the last contents reported or cleared by a request that was applied. */
  function Reported(c: Codec, cycles: seq<Cycle>): string {
    if cycles == [] then ""
    else
      var last := cycles[|cycles| - 1];
      match last.found
      case NoCluster => if last.applied then "" else Reported(c, cycles[..|cycles| - 1])
      case Running(data) => if last.applied then c.encode(data) else Reported(c, cycles[..|cycles| - 1])
      case _ => Reported(c, cycles[..|cycles| - 1])
  }

  lemma {:induction false} CyclesTrackHost(c: Codec, cycles: seq<Cycle>)
    requires forall i :: 0 <= i < |cycles| ==> Validated(cycles[i])
    ensures Tracks(c, AfterCycles(c, cycles))
    ensures AfterCycles(c, cycles).last != Some([])
  {
    if cycles != [] {
      CyclesTrackHost(c, cycles[..|cycles| - 1]);
    }
  }

  /**
   Neither the hash check nor the check that something is held changes what the host ends up
   with: it follows the findings as if every one of them had been reported.
   */
  lemma {:induction false} HostFollowsFindings(c: Codec, cycles: seq<Cycle>)
    requires CollisionFree(c) && forall i :: 0 <= i < |cycles| ==> Validated(cycles[i])
    ensures AfterCycles(c, cycles).host == Reported(c, cycles)
  {
    if cycles != [] {
      var init := cycles[..|cycles| - 1];
      HostFollowsFindings(c, init);
      CyclesTrackHost(c, init);
    }
  }

  /** Base64 of nothing, and of nothing else, is the empty text. */
  ghost predicate OnlyNothingIsEmpty(c: Codec) {
    forall x :: c.encode(x) == "" <==> x == []
  }

  // ----- The code -----

  class KubeconfigManager {
    const codec: Codec
    var lastKubeconfig: Option<Bytes>
    var lastKubeconfigHash: string
    ghost var host: string

    ghost function View(): Manager
      reads this
    {
      Manager(lastKubeconfig, lastKubeconfigHash, host)
    }

    ghost predicate Valid()
      reads this
    {
      Tracks(codec, View())
    }

    constructor (codec: Codec)
      ensures this.codec == codec && Valid() && View() == NEW
    {
      this.codec := codec;
      lastKubeconfig, lastKubeconfigHash, host := None, "", "";
    }

    /** The request to the host manager. */
    method UpdateClusterStatus(kubeconfig: string, applied: bool) returns (ok: bool)
      modifies this`host
      ensures ok == applied && host == if applied then kubeconfig else old(host)
    {
      if applied {
        host := kubeconfig;
      }
      return applied;
    }

    method NotifyKubeconfig(data: Bytes, hasInfo: bool, applied: bool) returns (error: Option<Error>)
      requires Valid()
      modifies this
      ensures Valid()
      ensures (View(), error) == AfterCall(codec, old(View()), Notify(data, hasInfo, applied))
    {
      if !hasInfo {
        return Some(NoClusterInfo);
      }
      var currentHash := codec.hash(data);
      if lastKubeconfigHash == currentHash {
        return None;
      }
      var ok := UpdateClusterStatus(codec.encode(data), applied);
      if !ok {
        return Some(UpdateFailed);
      }
      lastKubeconfig := Some(data);
      lastKubeconfigHash := currentHash;
      return None;
    }

    method ClearKubeconfig(applied: bool) returns (error: Option<Error>)
      requires Valid()
      modifies this
      ensures Valid()
      ensures (View(), error) == AfterCall(codec, old(View()), Clear(applied))
    {
      var ok := UpdateClusterStatus("", applied);
      if !ok {
        return Some(UpdateFailed);
      }
      lastKubeconfig := None;
      lastKubeconfigHash := "";
      return None;
    }

    method HasKubeconfig() returns (has: bool)
      requires Valid()
      ensures OnlyNothingIsEmpty(codec) ==> (has <==> host != "")
      ensures has <==> lastKubeconfig.Some? && lastKubeconfig.value != []
    {
      has := lastKubeconfig.Some? && |lastKubeconfig.value| > 0;
    }

    method DetectAndManageCluster(found: Finding, applied: bool)
      requires Valid()
      modifies this
      ensures Valid()
      ensures View() == AfterCycle(codec, old(View()), Cycle(found, applied))
    {
      match found
      case NoCluster =>
        var has := HasKubeconfig();
        if has {
          var _ := ClearKubeconfig(applied);
        }
      case Running(data) =>
        var _ := NotifyKubeconfig(data, true, applied);
      case _ =>
    }
  }
}
