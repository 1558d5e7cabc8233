/**
 Rendering the host metric configuration from templates, and the polling loop that renders
 it again only when its group changed. Over any run this agrees with rendering every time.
 */
module TelemetryRender {
  import opened Wrappers
  import opened Text
  import opened TelemetryChanges
  import Decimal

  datatype Template = Template(key: string, typ: string, isInit: bool, multilineData: string)

  type Templates = seq<Template>

  /** Which templates a lookup collects. */
  datatype Lookup = ByKey(key: string, typ: string) | Defaults(typ: string, isInit: bool)

  predicate Applies(l: Lookup, t: Template) {
    match l
    case ByKey(key, typ) => t.key == key && t.typ == typ
    case Defaults(typ, isInit) => (!isInit && t.typ == typ) || (isInit && t.isInit)
  }

  /** The data of every template that applies, one after the other; "" when none does. */
  function Collect(templates: Templates, l: Lookup): string {
    if templates == [] then ""
    else Collect(templates[..|templates| - 1], l)
         + (if Applies(l, templates[|templates| - 1]) then templates[|templates| - 1].multilineData + "\n" else "")
  }

  function InputTemplate(key: string, typ: string, templates: Templates): string {
    Collect(templates, ByKey(key, typ))
  }

  function DefaultTemplate(typ: string, templates: Templates, isInit: bool): string {
    Collect(templates, Defaults(typ, isInit))
  }

  function AddInterval(text: string, interval: int): string {
    TrimSpace(text) + "\n  interval = \"" + Decimal.Itoa(interval) + "m\"\n"
  }

  /** What one entry adds to the inputs of a collector kind. */
  function RenderEntry(e: Entry, templates: Templates, kind: CollectorKind): string {
    var text := InputTemplate(e.input, "input", templates);
    if !e.resource.Metrics? || e.kind != kind || text == "" then ""
    else AddInterval(text, e.interval) + "\n"
  }

  function RenderInputs(cfg: Config, templates: Templates, kind: CollectorKind): string {
    if cfg == [] then ""
    else RenderInputs(cfg[..|cfg| - 1], templates, kind) + RenderEntry(cfg[|cfg| - 1], templates, kind)
  }

  function OptionalSection(text: string): string {
    if text == "" then "" else text + "\n"
  }

  predicate HasAgent(templates: Templates) {
    InputTemplate("agent", "global", templates) != ""
  }

  function UpdateCfg(cfg: Config, templates: Templates, kind: CollectorKind, isInit: bool): Option<string> {
    if !HasAgent(templates) then None
    else Some(InputTemplate("agent", "global", templates) + "\n"
              + (RenderInputs(cfg, templates, kind) + OptionalSection(DefaultTemplate("default", templates, isInit)))
              + OptionalSection(InputTemplate("output", "output", templates)))
  }

  // ----- What a rendering contains -----

  function Concat(texts: seq<string>): string {
    if texts == [] then "" else Concat(texts[..|texts| - 1]) + texts[|texts| - 1]
  }

  predicate InRange(templates: Templates, positions: seq<nat>) {
    forall k :: 0 <= k < |positions| ==> positions[k] < |templates|
  }

  /** The data of the templates at the given positions, each on lines of its own. */
  function DataAt(templates: Templates, positions: seq<nat>): string
    requires InRange(templates, positions)
  {
    Concat(seq(|positions|, k requires 0 <= k < |positions| => templates[positions[k]].multilineData + "\n"))
  }

  predicate Increasing(positions: seq<nat>) {
    forall k, l :: 0 <= k < l < |positions| ==> positions[k] < positions[l]
  }

  /** Exactly the positions of the templates with a key and a type, in order. */
  ghost predicate PicksByKey(templates: Templates, positions: seq<nat>, key: string, typ: string) {
    && Increasing(positions)
    && forall i: nat :: i in positions <==> i < |templates| && templates[i].key == key && templates[i].typ == typ
  }

  /** Exactly the positions of the default templates, or of the initial ones, in order. */
  ghost predicate PicksDefaults(templates: Templates, positions: seq<nat>, isInit: bool) {
    && Increasing(positions)
    && forall i: nat :: i in positions
                        <==> i < |templates| && (if isInit then templates[i].isInit else templates[i].typ == "default")
  }

  lemma ConcatOneMore(texts: seq<string>, last: string)
    ensures Concat(texts + [last]) == Concat(texts) + last
  {
    assert (texts + [last])[..|texts|] == texts;
  }

  lemma DataOneMore(templates: Templates, positions: seq<nat>)
    requires templates != [] && InRange(templates[..|templates| - 1], positions)
    ensures InRange(templates, positions) && InRange(templates, positions + [|templates| - 1])
    ensures DataAt(templates, positions) == DataAt(templates[..|templates| - 1], positions)
    ensures DataAt(templates, positions + [|templates| - 1])
         == DataAt(templates, positions) + (templates[|templates| - 1].multilineData + "\n")
  {
    var n, init := |templates| - 1, templates[..|templates| - 1];
    var blocks := seq(|positions|, k requires 0 <= k < |positions| => templates[positions[k]].multilineData + "\n");
    assert blocks == seq(|positions|, k requires 0 <= k < |positions| => init[positions[k]].multilineData + "\n");
    var longer := positions + [n];
    ConcatOneMore(blocks, templates[n].multilineData + "\n");
    assert seq(|longer|, k requires 0 <= k < |longer| => templates[longer[k]].multilineData + "\n")
        == blocks + [templates[n].multilineData + "\n"];
  }

  /** A lookup collects the data of all templates that apply, in order, and nothing only if none does. */
  lemma {:induction false} CollectsInOrder(templates: Templates, l: Lookup) returns (positions: seq<nat>)
    ensures Increasing(positions) && InRange(templates, positions)
    ensures forall i: nat :: i in positions <==> i < |templates| && Applies(l, templates[i])
    ensures Collect(templates, l) == DataAt(templates, positions)
    ensures Collect(templates, l) == "" <==> positions == []
  {
    positions := [];
    if templates != [] {
      var n, init := |templates| - 1, templates[..|templates| - 1];
      positions := CollectsInOrder(init, l);
      DataOneMore(templates, positions);
      hide DataAt, Applies;
      assert forall k :: 0 <= k < |positions| ==> positions[k] in positions;
      if Applies(l, templates[n]) {
        positions := positions + [n];
      }
    }
  }

  lemma CollectsByKey(templates: Templates, key: string, typ: string) returns (positions: seq<nat>)
    ensures PicksByKey(templates, positions, key, typ) && InRange(templates, positions)
    ensures InputTemplate(key, typ, templates) == DataAt(templates, positions)
    ensures InputTemplate(key, typ, templates) == "" <==> positions == []
  {
    positions := CollectsInOrder(templates, ByKey(key, typ));
  }

  lemma CollectsDefaults(templates: Templates, isInit: bool) returns (positions: seq<nat>)
    ensures PicksDefaults(templates, positions, isInit) && InRange(templates, positions)
    ensures DefaultTemplate("default", templates, isInit) == DataAt(templates, positions)
    ensures DefaultTemplate("default", templates, isInit) == "" <==> positions == []
  {
    positions := CollectsInOrder(templates, Defaults("default", isInit));
  }

  /** The entry is a metric of the kind and has an input template. */
  predicate IsRendered(e: Entry, templates: Templates, kind: CollectorKind) {
    && e.resource.Metrics? && e.kind == kind
    && exists i :: 0 <= i < |templates| && templates[i].key == e.input && templates[i].typ == "input"
  }

  /** The trimmed data of the entry's input templates, followed by a line with its interval. */
  ghost predicate IsBlockOf(block: string, e: Entry, templates: Templates) {
    exists positions, number :: IsBlockWith(block, e, templates, positions, number)
  }

  ghost predicate IsBlockWith(block: string, e: Entry, templates: Templates, positions: seq<nat>, number: string) {
    && PicksByKey(templates, positions, e.input, "input")
    && InRange(templates, positions)
    && Decimal.Atoi(number) == Some(e.interval)
    && block == TrimSpace(DataAt(templates, positions)) + "\n  interval = \"" + number + "m\"\n" + "\n"
  }

  lemma EntryBlock(e: Entry, templates: Templates, kind: CollectorKind)
    requires Decimal.IsInt64(e.interval)
    ensures if IsRendered(e, templates, kind) then IsBlockOf(RenderEntry(e, templates, kind), e, templates)
            else RenderEntry(e, templates, kind) == ""
  {
    var positions := CollectsByKey(templates, e.input, "input");
    Decimal.ItoaRoundTrip(e.interval);
    if IsRendered(e, templates, kind) {
      var i :| 0 <= i < |templates| && templates[i].key == e.input && templates[i].typ == "input";
      assert i in positions;
      assert IsBlockWith(RenderEntry(e, templates, kind), e, templates, positions, Decimal.Itoa(e.interval)) by {
        hide Decimal.Itoa, Decimal.Atoi, TrimSpace, DataAt, Collect;
      }
    } else if positions != [] {
      assert positions[0] in positions;
    }
  }

  /** Exactly the entries that are rendered, in order. */
  ghost predicate PicksEntries(cfg: Config, positions: seq<nat>, templates: Templates, kind: CollectorKind) {
    && Increasing(positions)
    && forall i: nat :: i in positions <==> i < |cfg| && IsRendered(cfg[i], templates, kind)
  }

  /** One block for each picked entry. */
  ghost predicate AreBlocks(cfg: Config, entries: seq<nat>, blocks: seq<string>, templates: Templates) {
    && |blocks| == |entries|
    && forall k :: 0 <= k < |blocks| ==> entries[k] < |cfg| && IsBlockOf(blocks[k], cfg[entries[k]], templates)
  }

  lemma PicksOneMore(cfg: Config, entries: seq<nat>, templates: Templates, kind: CollectorKind)
    requires cfg != [] && PicksEntries(cfg[..|cfg| - 1], entries, templates, kind)
    ensures PicksEntries(cfg, entries + (if IsRendered(cfg[|cfg| - 1], templates, kind) then [|cfg| - 1] else []),
                         templates, kind)
  {
    hide IsRendered;
    var n := |cfg| - 1;
    assert forall k :: 0 <= k < |entries| ==> entries[k] in entries;
  }

  lemma OneMoreBlock(cfg: Config, entries: seq<nat>, blocks: seq<string>, templates: Templates, block: string)
    requires cfg != [] && AreBlocks(cfg[..|cfg| - 1], entries, blocks, templates)
    ensures AreBlocks(cfg, entries, blocks, templates)
    ensures IsBlockOf(block, cfg[|cfg| - 1], templates) ==>
              AreBlocks(cfg, entries + [|cfg| - 1], blocks + [block], templates)
  {
    hide IsBlockOf;
  }

  /** The inputs are the blocks of the rendered entries, in the order of the entries. */
  lemma {:induction false} InputsAreBlocks(cfg: Config, templates: Templates, kind: CollectorKind)
    returns (entries: seq<nat>, blocks: seq<string>)
    requires forall e :: e in cfg ==> Decimal.IsInt64(e.interval)
    ensures PicksEntries(cfg, entries, templates, kind) && AreBlocks(cfg, entries, blocks, templates)
    ensures RenderInputs(cfg, templates, kind) == Concat(blocks)
  {
    entries, blocks := [], [];
    if cfg != [] {
      var n, last := |cfg| - 1, cfg[|cfg| - 1];
      hide RenderEntry, IsRendered, IsBlockOf, AreBlocks, PicksEntries;
      assert last in cfg;
      entries, blocks := InputsAreBlocks(cfg[..n], templates, kind);
      EntryBlock(last, templates, kind);
      PicksOneMore(cfg, entries, templates, kind);
      OneMoreBlock(cfg, entries, blocks, templates, RenderEntry(last, templates, kind));
      if IsRendered(last, templates, kind) {
        ConcatOneMore(blocks, RenderEntry(last, templates, kind));
        entries, blocks := entries + [n], blocks + [RenderEntry(last, templates, kind)];
      } else {
        assert entries + [] == entries;
      }
    }
  }

  /** A section of a file: nothing, or the data of its templates and an empty line. */
  function Section(templates: Templates, positions: seq<nat>): string
    requires InRange(templates, positions)
  {
    if positions == [] then "" else DataAt(templates, positions) + "\n"
  }

  /**
   What a rendering is: the global section, a block with its interval for every metrics entry of the
   kind that has a template, in the order of the entries, then the default templates, or the
   initial ones, and the output section. There is none exactly when no global template exists.
   */
  lemma RenderingHasItsParts(cfg: Config, templates: Templates, kind: CollectorKind, isInit: bool)
    returns (global: seq<nat>, entries: seq<nat>, blocks: seq<string>, defaults: seq<nat>, output: seq<nat>)
    requires forall e :: e in cfg ==> Decimal.IsInt64(e.interval)
    ensures PicksByKey(templates, global, "agent", "global") && PicksByKey(templates, output, "output", "output")
    ensures PicksDefaults(templates, defaults, isInit)
    ensures InRange(templates, global) && InRange(templates, defaults) && InRange(templates, output)
    ensures PicksEntries(cfg, entries, templates, kind) && AreBlocks(cfg, entries, blocks, templates)
    ensures UpdateCfg(cfg, templates, kind, isInit)
         == if global == [] then None
            else Some(Section(templates, global) + (Concat(blocks) + Section(templates, defaults))
                      + Section(templates, output))
  {
    global := CollectsByKey(templates, "agent", "global");
    output := CollectsByKey(templates, "output", "output");
    defaults := CollectsDefaults(templates, isInit);
    entries, blocks := InputsAreBlocks(cfg, templates, kind);
    hide Collect, DataAt, RenderInputs, Concat, AreBlocks, PicksEntries;
  }

  /** The deployed file is the rendering without the white space at its ends. */
  lemma DeployedIsTheRendering(cfg: Config, templates: Templates, isInit: bool) returns (lead: string, trail: string)
    ensures Deploy(cfg, templates, isInit).Some? <==> UpdateCfg(cfg, templates, Host, isInit).Some?
    ensures Deploy(cfg, templates, isInit).Some? ==>
              && Bare(Deploy(cfg, templates, isInit).value, IsSpace)
              && UpdateCfg(cfg, templates, Host, isInit).value == lead + Deploy(cfg, templates, isInit).value + trail
              && (forall c :: c in lead || c in trail ==> IsSpace(c))
  {
    lead, trail := "", "";
    match UpdateCfg(cfg, templates, Host, isInit)
    case None =>
    case Some(text) =>
      lead, trail := TrimCuts(text, IsSpace);
      TrimFixesExactlyBare(text, IsSpace);
  }

  // ----- Rendering only looks at the group -----

  function InGroup(cfg: Config, g: nat): Config {
    if cfg == [] then []
    else InGroup(cfg[..|cfg| - 1], g) + (if GroupOf(cfg[|cfg| - 1]) == g then [cfg[|cfg| - 1]] else [])
  }

  function OutOfGroup(cfg: Config, g: nat): Config {
    if cfg == [] then []
    else OutOfGroup(cfg[..|cfg| - 1], g) + (if GroupOf(cfg[|cfg| - 1]) != g then [cfg[|cfg| - 1]] else [])
  }

  lemma {:induction false} GroupSplits(cfg: Config, g: nat)
    ensures multiset(InGroup(cfg, g)) + multiset(OutOfGroup(cfg, g)) == multiset(cfg)
    ensures forall e :: e in InGroup(cfg, g) <==> e in cfg && GroupOf(e) == g
    ensures forall e :: e in OutOfGroup(cfg, g) <==> e in cfg && GroupOf(e) != g
  {
    if cfg != [] {
      var init := cfg[..|cfg| - 1];
      GroupSplits(init, g);
      assert cfg == init + [cfg[|cfg| - 1]];
    }
  }

  lemma {:induction false} RenderInputsConcat(a: Config, b: Config, templates: Templates, kind: CollectorKind)
    ensures RenderInputs(a + b, templates, kind)
         == RenderInputs(a, templates, kind) + RenderInputs(b, templates, kind)
  {
    hide RenderEntry;
    if b == [] {
      assert a + b == a;
    } else {
      var init := b[..|b| - 1];
      RenderInputsConcat(a, init, templates, kind);
      assert (a + b)[..|a + b| - 1] == a + init;
    }
  }

  lemma OtherRendersNothing(e: Entry, templates: Templates)
    requires GroupOf(e) != METRIC_HOST
    ensures RenderEntry(e, templates, Host) == ""
  {
  }

  lemma {:induction false} OthersRenderNothing(cfg: Config, templates: Templates)
    requires forall e :: e in cfg ==> GroupOf(e) != METRIC_HOST
    ensures RenderInputs(cfg, templates, Host) == ""
  {
    if cfg != [] {
      assert cfg[|cfg| - 1] in cfg;
      OthersRenderNothing(cfg[..|cfg| - 1], templates);
    }
  }

  lemma {:induction false} RenderOnlyTheGroup(cfg: Config, templates: Templates)
    ensures RenderInputs(cfg, templates, Host) == RenderInputs(InGroup(cfg, METRIC_HOST), templates, Host)
  {
    if cfg != [] {
      var init, last := cfg[..|cfg| - 1], cfg[|cfg| - 1];
      RenderOnlyTheGroup(init, templates);
      hide RenderEntry;
      var group := InGroup(init, METRIC_HOST);
      if GroupOf(last) == METRIC_HOST {
        assert InGroup(cfg, METRIC_HOST) == group + [last];
        assert (group + [last])[..|group|] == group;
      } else {
        OtherRendersNothing(last, templates);
        assert InGroup(cfg, METRIC_HOST) == group;
      }
    }
  }

  // ----- Equal settings mean permuted groups -----

  lemma OccursOnceInGroup(cfg: Config, g: nat, e: Entry)
    requires UniqueInputs(cfg)
    ensures multiset(InGroup(cfg, g))[e] == if e in cfg && GroupOf(e) == g then 1 else 0
  {
  }

  lemma SettingsFindEntry(a: Config, b: Config, g: nat, e: Entry)
    requires Proper(a) && Proper(b) && Settings(a, g) == Settings(b, g)
    requires e in a && GroupOf(e) == g
    ensures e in b
  {
    assert (e.input, e.interval, e.level) in Settings(a, g);
    var f :| f in b && GroupOf(f) == g && (f.input, f.interval, f.level) == (e.input, e.interval, e.level);
    SettingDeterminesEntry(e, f);
  }

  lemma SameSettingsPermute(a: Config, b: Config, g: nat)
    requires UniqueInputs(a) && UniqueInputs(b) && Proper(a) && Proper(b)
    requires Settings(a, g) == Settings(b, g)
    ensures multiset(InGroup(a, g)) == multiset(InGroup(b, g))
  {
    forall e
      ensures multiset(InGroup(a, g))[e] == multiset(InGroup(b, g))[e]
    {
      OccursOnceInGroup(a, g, e);
      OccursOnceInGroup(b, g, e);
      if e in a && GroupOf(e) == g { SettingsFindEntry(a, b, g, e); }
      if e in b && GroupOf(e) == g { SettingsFindEntry(b, a, g, e); }
    }
  }

  // ----- Polling cycles -----

  /** The configuration last received, and the host metric file as deployed. */
  datatype Agent = Agent(previous: Config, deployed: Option<string>)

  const STARTED := Agent([], None)

  function Deploy(cfg: Config, templates: Templates, isInit: bool): Option<string> {
    match UpdateCfg(cfg, templates, Host, isInit)
    case None => None
    case Some(text) => Some(TrimSpace(text))
  }

  /** One cycle with a received configuration; the file is only rendered again when dirty. */
  function AfterCycle(a: Agent, cfg: Config, templates: Templates): Agent {
    var profile := Distinct(Profiles(a.previous));
    var deployed := Deploy(cfg, templates, GoesEmpty(profile, cfg, METRIC_HOST));
    Agent(cfg, if IsDirty(a.previous, profile, cfg, METRIC_HOST) && deployed.Some? then deployed else a.deployed)
  }

  function AfterCycles(configs: seq<Config>, templates: Templates): Agent {
    if configs == [] then STARTED
    else AfterCycle(AfterCycles(configs[..|configs| - 1], templates), configs[|configs| - 1], templates)
  }

  /** In every configuration Inputs are unique and the pairs proper, and no Input ever changes its group. */
  predicate WellBehaved(configs: seq<Config>) {
    && (forall i :: 0 <= i < |configs| ==> UniqueInputs(configs[i]) && Proper(configs[i]))
    && forall i, j :: 0 <= i < |configs| && 0 <= j < |configs| ==> KeepsGroups(configs[i], configs[j])
  }

  predicate HasGroup(cfg: Config) {
    InGroup(cfg, METRIC_HOST) != []
  }

  predicate Permutes(a: Config, b: Config) {
    multiset(a) == multiset(b)
  }

  /** The deployed file is the rendering of a permutation of the entries, initial exactly for an empty group. */
  ghost predicate RendersPermutationOf(deployed: Option<string>, cfg: Config, templates: Templates) {
    exists permuted: Config ::
      && Permutes(permuted, cfg)
      && deployed == Deploy(permuted, templates, !HasGroup(cfg))
      && deployed.Some?
  }

  lemma GroupPresence(cfg: Config)
    ensures HasGroup(cfg) <==> Settings(cfg, METRIC_HOST) != {}
  {
    EmptySettings(cfg, METRIC_HOST);
    GroupSplits(cfg, METRIC_HOST);
    if HasGroup(cfg) {
      assert InGroup(cfg, METRIC_HOST)[0] in InGroup(cfg, METRIC_HOST);
    }
  }

  /** A file that renders one configuration renders every other with a permuted group. */
  lemma RenderingCarriesOver(deployed: Option<string>, earlier: Config, later: Config, templates: Templates)
    requires RendersPermutationOf(deployed, earlier, templates)
    requires multiset(InGroup(earlier, METRIC_HOST)) == multiset(InGroup(later, METRIC_HOST))
    ensures RendersPermutationOf(deployed, later, templates)
  {
    var p: Config :| Permutes(p, earlier) && deployed == Deploy(p, templates, !HasGroup(earlier)) && deployed.Some?;
    var g := METRIC_HOST;
    var permuted := InGroup(p, g) + OutOfGroup(later, g);
    PermutedGroups(p, earlier, g);
    GroupSplits(later, g);
    assert Permutes(permuted, later);
    assert RenderInputs(permuted, templates, Host) == RenderInputs(p, templates, Host) by {
      RenderOnlyTheGroup(p, templates);
      RenderInputsConcat(InGroup(p, g), OutOfGroup(later, g), templates, Host);
      OthersRenderNothing(OutOfGroup(later, g), templates);
    }
    assert |InGroup(earlier, g)| == |multiset(InGroup(earlier, g))| == |multiset(InGroup(later, g))| == |InGroup(later, g)|;
    hide RenderInputs, Collect, TrimSpace, InGroup, OutOfGroup;
    assert deployed == Deploy(permuted, templates, !HasGroup(later));
  }

  lemma {:induction false} GroupCounts(cfg: Config, g: nat, e: Entry)
    ensures multiset(InGroup(cfg, g))[e] == if GroupOf(e) == g then multiset(cfg)[e] else 0
  {
    if cfg != [] {
      var init := cfg[..|cfg| - 1];
      GroupCounts(init, g, e);
      assert cfg == init + [cfg[|cfg| - 1]];
    }
  }

  lemma PermutedGroups(a: Config, b: Config, g: nat)
    requires multiset(a) == multiset(b)
    ensures multiset(InGroup(a, g)) == multiset(InGroup(b, g))
  {
    forall e
      ensures multiset(InGroup(a, g))[e] == multiset(InGroup(b, g))[e]
    {
      GroupCounts(a, g, e);
      GroupCounts(b, g, e);
    }
  }

  lemma CycleRenders(a: Agent, cfg: Config, templates: Templates)
    requires HasAgent(templates)
    requires UniqueInputs(a.previous) && UniqueInputs(cfg) && Proper(a.previous) && Proper(cfg)
    requires KeepsGroups(a.previous, cfg)
    requires HasGroup(cfg) || HasGroup(a.previous) || a.deployed.Some?
    requires HasGroup(a.previous) || a.deployed.Some? ==> RendersPermutationOf(a.deployed, a.previous, templates)
    ensures RendersPermutationOf(AfterCycle(a, cfg, templates).deployed, cfg, templates)
  {
    MasksAreExact(a.previous, cfg, METRIC_HOST);
    GroupPresence(a.previous);
    GroupPresence(cfg);
    if Settings(a.previous, METRIC_HOST) != Settings(cfg, METRIC_HOST) {
      assert Permutes(cfg, cfg) && AfterCycle(a, cfg, templates).deployed == Deploy(cfg, templates, !HasGroup(cfg));
    } else {
      SameSettingsPermute(a.previous, cfg, METRIC_HOST);
      RenderingCarriesOver(a.deployed, a.previous, cfg, templates);
    }
  }

  /** Nothing is deployed as long as the group has always been empty. */
  lemma CycleStaysUndeployed(a: Agent, cfg: Config, templates: Templates)
    requires UniqueInputs(a.previous) && Proper(a.previous) && Proper(cfg) && KeepsGroups(a.previous, cfg)
    requires a.deployed.None? && !HasGroup(a.previous) && !HasGroup(cfg)
    ensures AfterCycle(a, cfg, templates).deployed.None?
  {
    MasksAreExact(a.previous, cfg, METRIC_HOST);
    GroupPresence(a.previous);
    GroupPresence(cfg);
  }

  /**
   Rendering only dirty groups agrees with rendering every time: after any cycles, once the
   host metric group has been non-empty, the deployed file is a full rendering of a permutation
   of the present entries, with the initial template exactly when the group is now empty;
   before that nothing is deployed.
   */
  lemma {:induction false} DirtyRenderingAgrees(configs: seq<Config>, templates: Templates)
    requires HasAgent(templates) && WellBehaved(configs) && configs != []
    ensures (exists i :: 0 <= i < |configs| && HasGroup(configs[i])) ==>
              RendersPermutationOf(AfterCycles(configs, templates).deployed, configs[|configs| - 1], templates)
    ensures (forall i :: 0 <= i < |configs| ==> !HasGroup(configs[i])) ==>
              AfterCycles(configs, templates).deployed.None?
  {
    var init, cfg := configs[..|configs| - 1], configs[|configs| - 1];
    var a := AfterCycles(init, templates);
    assert AfterCycles(configs, templates) == AfterCycle(a, cfg, templates);
    ConfigsAreComparable(configs, templates);
    if init != [] {
      DirtyRenderingAgrees(init, templates);
      PreviousIsLast(init, templates);
    }
    hide AfterCycle, AfterCycles, RendersPermutationOf, InGroup, KeepsGroups, UniqueInputs, Proper, HasGroup, WellBehaved;
    if i :| 0 <= i < |configs| && HasGroup(configs[i]) {
      assert i == |init| || init[i] == configs[i];
      CycleRenders(a, cfg, templates);
    } else {
      assert forall i :: 0 <= i < |init| ==> init[i] == configs[i];
      CycleStaysUndeployed(a, cfg, templates);
    }
  }

  /** The present and the previous configuration of a well-behaved run meet the comparison's assumptions. */
  lemma ConfigsAreComparable(configs: seq<Config>, templates: Templates)
    requires WellBehaved(configs) && configs != []
    ensures var init, cfg := configs[..|configs| - 1], configs[|configs| - 1];
            var a := AfterCycles(init, templates);
            && WellBehaved(init)
            && UniqueInputs(a.previous) && Proper(a.previous) && UniqueInputs(cfg) && Proper(cfg)
            && KeepsGroups(a.previous, cfg)
            && (init == [] ==> !HasGroup(a.previous) && a.deployed.None?)
  {
  }

  lemma PreviousIsLast(configs: seq<Config>, templates: Templates)
    ensures AfterCycles(configs, templates).previous == if configs == [] then [] else configs[|configs| - 1]
  {
  }

  // ----- The code -----

  class MetricAgent {
    const templates: Templates
    const detector: ChangeDetector
    var deployed: Option<string>

    constructor (templates: Templates)
      ensures Valid() && View() == STARTED && this.templates == templates && fresh(detector)
    {
      this.templates, deployed := templates, None;
      detector := new ChangeDetector();
    }

    ghost predicate Valid()
      reads this, detector
    {
      detector.Valid()
    }

    function View(): Agent
      reads this, detector
    {
      Agent(detector.Previous(), deployed)
    }

    /** getInputTemplateFromKey and getDefaultInputTemplate: the same loop with different tests. */
    method GetTemplate(l: Lookup) returns (result: Option<string>)
      ensures result == if Collect(templates, l) == "" then None else Some(Collect(templates, l))
    {
      var text := "";
      for i := 0 to |templates|
        invariant text == Collect(templates[..i], l)
      {
        if Applies(l, templates[i]) {
          text := text + (templates[i].multilineData + "\n");
        }
        assert templates[..i + 1][..i] == templates[..i];
      }
      assert templates[..|templates|] == templates;
      return if text == "" then None else Some(text);
    }

    method GetInputs(cfg: Config, kind: CollectorKind) returns (inputCfg: string)
      ensures inputCfg == RenderInputs(cfg, templates, kind)
    {
      hide AddInterval;
      inputCfg := "";
      for i := 0 to |cfg|
        invariant inputCfg == RenderInputs(cfg[..i], templates, kind)
      {
        if cfg[i].resource.Metrics? && cfg[i].kind == kind {
          var input := GetTemplate(ByKey(cfg[i].input, "input"));
          if input.Some? {
            inputCfg := inputCfg + (AddInterval(input.value, cfg[i].interval) + "\n");
          }
        }
        assert cfg[..i + 1][..i] == cfg[..i];
      }
      assert cfg[..|cfg|] == cfg;
    }

    /** updateCfg: global section, one block per matching entry, defaults, output. */
    method UpdateConfig(cfg: Config, kind: CollectorKind, isInit: bool) returns (content: Option<string>)
      ensures content == UpdateCfg(cfg, templates, kind, isInit)
    {
      hide RenderInputs, Collect;
      var agent := GetTemplate(ByKey("agent", "global"));
      if agent.None? {
        return None;
      }
      var header := agent.value + "\n";
      var inputCfg := GetInputs(cfg, kind);
      var defaults := GetTemplate(Defaults("default", isInit));
      inputCfg := inputCfg + (if defaults.Some? then defaults.value + "\n" else "");
      var output := GetTemplate(ByKey("output", "output"));
      var outputCfg := if output.Some? then output.value + "\n" else "";
      return Some(header + inputCfg + outputCfg);
    }

    /** One turn of the polling loop with a received configuration. */
    method Cycle(cfg: Config)
      requires Valid()
      modifies this, detector
      ensures Valid() && View() == AfterCycle(old(View()), cfg, templates)
    {
      var dirty, init := detector.CheckIfChanged(Some(cfg));
      if dirty[METRIC_HOST] {
        var content := UpdateConfig(cfg, Host, init[METRIC_HOST]);
        if content.Some? {
          deployed := Some(TrimSpace(content.value));
        }
      }
    }
  }
}
