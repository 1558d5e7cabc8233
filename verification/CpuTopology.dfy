/**
 The hardware discovery agent's split of a machine's CPUs into performance and efficiency cores,
 socket by socket, from the rows that lscpu lists.
 */
module CpuTopology {
  import opened Wrappers
  import opened Text
  import Decimal

  const MAX_UINT32 := 0xFFFF_FFFF
  const MAX_UINT64 := 0xFFFF_FFFF_FFFF_FFFF

  datatype Row = Row(cpu: string, socket: string, maxMhz: string)

  datatype CoreGroup = CoreGroup(name: string, cpus: seq<nat>)

  datatype Socket = Socket(id: nat, groups: seq<CoreGroup>)

  datatype Kind = Performance | Efficiency

  /** strconv.ParseUint in base ten for values up to the given maximum. */
  function ParseUint(s: string, max: nat): Option<nat> {
    var n := Decimal.ParseDigits(s);
    if n.Some? && n.value <= max then n else None
  }

  function ParseMhz(s: string): Option<nat> {
    ParseUint(TrimSuffix(s, ".0000"), MAX_UINT64)
  }

  /** Zero when it cannot be told. */
  function MaxFrequency(coreMaxFreq: string): (max: nat)
    ensures max <= MAX_UINT64
  {
    match ParseMhz(coreMaxFreq)
    case Some(n) => n
    case None => 0
  }

  /** Three quarters of the maximum; the product wraps as uint64 does. */
  function TargetFrequency(max: nat): nat {
    ((3 * max) % (MAX_UINT64 + 1)) / 4
  }

  /** Barring overflow, a core is below the target exactly when it runs at three quarters of the maximum or less. */
  lemma TargetIsThreeQuarters(frequency: nat, max: nat)
    requires 3 * max <= MAX_UINT64
    ensures frequency <= TargetFrequency(max) <==> 4 * frequency <= 3 * max
  {
  }

  /** With overflow some frequency is on the wrong side: the classification is right exactly without it. */
  lemma RightExactlyWithoutOverflow(max: nat)
    requires max <= MAX_UINT64
    ensures 3 * max <= MAX_UINT64
            <==> forall frequency: nat :: frequency <= TargetFrequency(max) <==> 4 * frequency <= 3 * max
  {
    if 3 * max <= MAX_UINT64 {
      forall frequency: nat
        ensures frequency <= TargetFrequency(max) <==> 4 * frequency <= 3 * max
      {
        TargetIsThreeQuarters(frequency, max);
      }
    } else {
      var frequency := 0x4000_0000_0000_0000;
      assert 4 * frequency <= 3 * max;
      assert TargetFrequency(max) < frequency;
    }
  }

  /** A socket that does not parse counts as the first one. */
  function SocketOf(row: Row): nat {
    match ParseUint(row.socket, MAX_UINT32)
    case Some(n) => n
    case None => 0
  }

  /** Rows without a CPU number, or with a frequency that is neither a dash nor a number, are dropped. */
  predicate Counts(row: Row) {
    ParseUint(row.cpu, MAX_UINT32).Some? && (row.maxMhz == "-" || ParseMhz(row.maxMhz).Some?)
  }

  function KindOf(row: Row, target: nat): Kind
    requires Counts(row)
  {
    if row.maxMhz != "-" && ParseMhz(row.maxMhz).value <= target then Efficiency else Performance
  }

  predicate Belongs(row: Row, socket: nat, target: nat, kind: Kind) {
    Counts(row) && SocketOf(row) == socket && KindOf(row, target) == kind
  }

  function CpuOf(row: Row): nat {
    match ParseUint(row.cpu, MAX_UINT32)
    case Some(n) => n
    case None => 0
  }

  /** The positions of the rows that belong to a socket's group of a kind. */
  function Chosen(rows: seq<Row>, socket: nat, target: nat, kind: Kind): (chosen: seq<nat>)
    ensures forall k :: 0 <= k < |chosen| ==> chosen[k] < |rows|
  {
    if rows == [] then []
    else
      Chosen(rows[..|rows| - 1], socket, target, kind)
      + (if Belongs(rows[|rows| - 1], socket, target, kind) then [|rows| - 1] else [])
  }

  /** The CPU numbers at the given positions. */
  function CpusAt(rows: seq<Row>, positions: seq<nat>): (cpus: seq<nat>)
    requires forall k :: 0 <= k < |positions| ==> positions[k] < |rows|
    ensures |cpus| == |positions|
    ensures forall k :: 0 <= k < |cpus| ==> cpus[k] == CpuOf(rows[positions[k]])
  {
    seq(|positions|, k requires 0 <= k < |positions| => CpuOf(rows[positions[k]]))
  }

  function Cpus(rows: seq<Row>, socket: nat, target: nat, kind: Kind): seq<nat> {
    CpusAt(rows, Chosen(rows, socket, target, kind))
  }

  /** The performance group is always there, the efficiency group only when it is not empty. */
  function Grouped(rows: seq<Row>, socket: nat, target: nat): Socket {
    var performance := Cpus(rows, socket, target, Performance);
    var efficiency := Cpus(rows, socket, target, Efficiency);
    Socket(socket, [CoreGroup("P-Core", performance)]
                   + (if efficiency != [] then [CoreGroup("E-Core", efficiency)] else []))
  }

  // ----- An order-preserving partition -----

  predicate Increasing(positions: seq<nat>) {
    forall k, l :: 0 <= k < l < |positions| ==> positions[k] < positions[l]
  }

  /** A group takes exactly the rows that belong to it, each once, in the order of the rows. */
  lemma {:induction false} GroupsKeepOrder(rows: seq<Row>, socket: nat, target: nat, kind: Kind)
    ensures Increasing(Chosen(rows, socket, target, kind))
    ensures forall i :: 0 <= i < |rows| ==>
              (i in Chosen(rows, socket, target, kind) <==> Belongs(rows[i], socket, target, kind))
  {
    if rows != [] {
      GroupsKeepOrder(rows[..|rows| - 1], socket, target, kind);
    }
  }

  /** Over the sockets below n, a row lands in exactly one group if it counts and its socket is below n, else in none. */
  lemma RowsLandOnce(rows: seq<Row>, n: nat, target: nat, i: nat)
    requires i < |rows|
    ensures Counts(rows[i]) && SocketOf(rows[i]) < n ==>
              forall socket, kind | 0 <= socket < n ::
                i in Chosen(rows, socket, target, kind)
                <==> socket == SocketOf(rows[i]) && kind == KindOf(rows[i], target)
    ensures !(Counts(rows[i]) && SocketOf(rows[i]) < n) ==>
              forall socket, kind | 0 <= socket < n :: i !in Chosen(rows, socket, target, kind)
  {
    forall socket, kind | 0 <= socket < n
      ensures i in Chosen(rows, socket, target, kind) <==> Belongs(rows[i], socket, target, kind)
    {
      GroupsKeepOrder(rows, socket, target, kind);
    }
  }

  /** A row with a frequency is in an efficiency group exactly when that is at most three quarters of the maximum. */
  lemma EfficiencyIsThreeQuarters(row: Row, coreMaxFreq: string)
    requires Counts(row) && 3 * MaxFrequency(coreMaxFreq) <= MAX_UINT64
    ensures KindOf(row, TargetFrequency(MaxFrequency(coreMaxFreq))) == Efficiency
            <==> row.maxMhz != "-" && 4 * ParseMhz(row.maxMhz).value <= 3 * MaxFrequency(coreMaxFreq)
  {
  }

  /** Without a usable maximum only cores that report frequency zero count as efficiency cores. */
  lemma NoMaximumMeansPerformance(row: Row, coreMaxFreq: string)
    requires Counts(row) && ParseMhz(coreMaxFreq).None?
    ensures KindOf(row, TargetFrequency(MaxFrequency(coreMaxFreq))) == Efficiency
            <==> row.maxMhz != "-" && ParseMhz(row.maxMhz).value == 0
  {
  }

  /** How many rows count towards the sockets below n. */
  function Placed(rows: seq<Row>, n: nat): nat {
    if rows == [] then 0
    else
      var last := rows[|rows| - 1];
      Placed(rows[..|rows| - 1], n) + (if Counts(last) && SocketOf(last) < n then 1 else 0)
  }

  /** How many CPUs the groups of the sockets below n list. */
  function Listed(rows: seq<Row>, n: nat, target: nat): nat {
    if n == 0 then 0
    else Listed(rows, n - 1, target)
         + |Cpus(rows, n - 1, target, Performance)| + |Cpus(rows, n - 1, target, Efficiency)|
  }

  /** No CPU is lost or listed twice: the groups together are as long as the rows that count. */
  lemma {:induction false} NothingIsLost(rows: seq<Row>, n: nat, target: nat)
    ensures Listed(rows, n, target) == Placed(rows, n)
    decreases n
  {
    hide Chosen, Placed;
    if n == 0 {
      NothingPlaced(rows);
    } else {
      NothingIsLost(rows, n - 1, target);
      OneSocket(rows, n - 1, target);
    }
  }

  lemma {:induction false} NothingPlaced(rows: seq<Row>)
    ensures Placed(rows, 0) == 0
  {
    if rows != [] {
      NothingPlaced(rows[..|rows| - 1]);
    }
  }

  lemma {:induction false} OneSocket(rows: seq<Row>, socket: nat, target: nat)
    ensures Placed(rows, socket + 1)
         == Placed(rows, socket)
            + |Chosen(rows, socket, target, Performance)| + |Chosen(rows, socket, target, Efficiency)|
  {
    if rows != [] {
      OneSocket(rows[..|rows| - 1], socket, target);
    }
  }

  lemma SuffixHasDot(s: string)
    requires HasSuffix(s, ".0000")
    ensures '.' in s
  {
    assert s[|s| - 5..][0] == '.';
  }

  lemma SuffixIsTrimmed(s: string)
    requires '.' !in s
    ensures TrimSuffix(s, ".0000") == s && TrimSuffix(s + ".0000", ".0000") == s
  {
    if HasSuffix(s, ".0000") {
      SuffixHasDot(s);
    }
    assert (s + ".0000")[|s|..] == ".0000" && (s + ".0000")[..|s|] == s;
  }

  /** A number reads as itself, with or without the zeros lscpu prints after it; anything else is no number. */
  lemma NumbersRead(n: nat, text: string)
    ensures ParseUint(Decimal.Digits(n), MAX_UINT32) == if n <= MAX_UINT32 then Some(n) else None
    ensures n <= MAX_UINT64 ==> ParseMhz(Decimal.Digits(n)) == Some(n) && ParseMhz(Decimal.Digits(n) + ".0000") == Some(n)
    ensures text == "" || (exists c :: c in text && !Decimal.IsDigit(c)) ==> ParseUint(text, MAX_UINT32).None?
  {
    Decimal.DigitsRoundTrip(n);
    assert !Decimal.IsDigit('.');
    SuffixIsTrimmed(Decimal.Digits(n));
    hide Decimal.Digits, Decimal.ValueOf, TrimSuffix;
  }

  /** A row with a CPU number of 32 bits counts unless its frequency is neither a dash nor a number; any other does not. */
  lemma RowsRead(n: nat, f: nat, cpu: string, socket: string, maxMhz: string)
    ensures Counts(Row(Decimal.Digits(n), socket, maxMhz))
            <==> n <= MAX_UINT32 && (maxMhz == "-" || ParseMhz(maxMhz).Some?)
    ensures n <= MAX_UINT32 ==> CpuOf(Row(Decimal.Digits(n), socket, maxMhz)) == n
    ensures cpu == "" || (exists c :: c in cpu && !Decimal.IsDigit(c)) ==> !Counts(Row(cpu, socket, maxMhz))
    ensures f <= MAX_UINT64 ==> ParseMhz(Decimal.Digits(f)) == ParseMhz(Decimal.Digits(f) + ".0000") == Some(f)
  {
    NumbersRead(n, cpu);
    NumbersRead(f, cpu);
    hide ParseUint, ParseMhz;
  }

  /** A socket number is the socket if it has 32 bits; anything else is taken for the first socket. */
  lemma SocketsRead(n: nat, cpu: string, socket: string, maxMhz: string)
    ensures SocketOf(Row(cpu, Decimal.Digits(n), maxMhz)) == if n <= MAX_UINT32 then n else 0
    ensures socket == "" || (exists c :: c in socket && !Decimal.IsDigit(c)) ==> SocketOf(Row(cpu, socket, maxMhz)) == 0
  {
    NumbersRead(n, socket);
    hide ParseUint;
  }

  /**
   The group named P-Core comes first and lists the CPUs of the socket's performance rows, the one
   named E-Core those of its efficiency rows, and is there exactly if there are any.
   */
  lemma GroupsAreNamed(rows: seq<Row>, socket: nat, target: nat)
    ensures
      var (id, groups) := (Grouped(rows, socket, target).id, Grouped(rows, socket, target).groups);
      && id == socket && 1 <= |groups| <= 2
      && groups[0] == CoreGroup("P-Core", CpusAt(rows, Chosen(rows, socket, target, Performance)))
      && (|groups| == 2 ==> groups[1] == CoreGroup("E-Core", CpusAt(rows, Chosen(rows, socket, target, Efficiency))))
      && (|groups| == 2 <==> exists i :: 0 <= i < |rows| && Belongs(rows[i], socket, target, Efficiency))
  {
    GroupsKeepOrder(rows, socket, target, Efficiency);
    var efficient := Chosen(rows, socket, target, Efficiency);
    if efficient != [] {
      assert efficient[0] in efficient;
    }
    hide Belongs, Chosen;
  }

  // ----- The code -----

  method GetCoreGroupsPerSocket(socketID: nat, coreInfo: seq<Row>, coreMaxFreq: nat) returns (socket: Socket)
    ensures socket == Grouped(coreInfo, socketID, coreMaxFreq)
  {
    hide SocketOf, ParseMhz, ParseUint, Cpus, Chosen;
    var pCoreList: seq<nat>, eCoreList: seq<nat> := [], [];
    NoRows(socketID, coreMaxFreq);
    for i := 0 to |coreInfo|
      invariant pCoreList == Cpus(coreInfo[..i], socketID, coreMaxFreq, Performance)
      invariant eCoreList == Cpus(coreInfo[..i], socketID, coreMaxFreq, Efficiency)
    {
      var core := coreInfo[i];
      OneMoreRow(coreInfo[..i], core, socketID, coreMaxFreq, Performance);
      OneMoreRow(coreInfo[..i], core, socketID, coreMaxFreq, Efficiency);
      assert coreInfo[..i + 1] == coreInfo[..i] + [core];
      if SocketOf(core) == socketID {
        var cpu := ParseUint(core.cpu, MAX_UINT32);
        if cpu.None? {
          continue;
        }
        if core.maxMhz == "-" {
          pCoreList := pCoreList + [cpu.value];
          continue;
        }
        var coreFreq := ParseMhz(core.maxMhz);
        if coreFreq.None? {
          continue;
        }
        if coreFreq.value <= coreMaxFreq {
          eCoreList := eCoreList + [cpu.value];
        } else {
          pCoreList := pCoreList + [cpu.value];
        }
      }
    }
    assert coreInfo[..|coreInfo|] == coreInfo;
    var coreGroups := [CoreGroup("P-Core", pCoreList)];
    if |eCoreList| > 0 {
      coreGroups := coreGroups + [CoreGroup("E-Core", eCoreList)];
    }
    return Socket(socketID, coreGroups);
  }

  lemma NoRows(socket: nat, target: nat)
    ensures Cpus([], socket, target, Performance) == [] && Cpus([], socket, target, Efficiency) == []
  {
  }

  lemma OneMoreRow(rows: seq<Row>, row: Row, socket: nat, target: nat, kind: Kind)
    ensures Cpus(rows + [row], socket, target, kind)
         == Cpus(rows, socket, target, kind) + (if Belongs(row, socket, target, kind) then [CpuOf(row)] else [])
  {
  }

  /** inferEPCores: the topology lists the sockets in order, each with its groups. */
  method InferEPCores(sockets: nat, coreInfo: seq<Row>, coreMaxFreq: string) returns (socketInfo: seq<Socket>)
    ensures |socketInfo| == sockets
    ensures forall id :: 0 <= id < sockets ==>
              socketInfo[id] == Grouped(coreInfo, id, TargetFrequency(MaxFrequency(coreMaxFreq)))
  {
    hide TargetFrequency, Grouped;
    socketInfo := [];
    for socketID := 0 to sockets
      invariant |socketInfo| == socketID
      invariant forall id :: 0 <= id < socketID ==>
                  socketInfo[id] == Grouped(coreInfo, id, TargetFrequency(MaxFrequency(coreMaxFreq)))
    {
      var maxCoreFreq := MaxFrequency(coreMaxFreq);
      var eCoreTargetFreq := TargetFrequency(maxCoreFreq);
      var socketDetails := GetCoreGroupsPerSocket(socketID, coreInfo, eCoreTargetFreq);
      socketInfo := socketInfo + [socketDetails];
    }
  }
}
