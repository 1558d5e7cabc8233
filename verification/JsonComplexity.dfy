/**
 The complexity guard of the firmware updater: the recursive measure of a decoded document
 (nesting depth and number of properties) and the limits applied to it. What the measure
 means is stated over the locations of the document, so that the order in which Go visits
 the members of an object cannot matter.
 */
module JsonComplexity {
  import opened Wrappers
  import opened Json

  const MAX_JSON_DEPTH := 100
  const MAX_JSON_PROPERTIES := 10000

  datatype Step = Member(key: string) | Item(index: nat)

  /** How a value inside a document is reached from its root. */
  type Location = seq<Step>

  predicate HasChild(j: Json, step: Step) {
    match step
    case Member(key) => j.Object? && key in j.members
    case Item(index) => j.Array? && index < |j.items|
  }

  function Child(j: Json, step: Step): Json
    requires HasChild(j, step)
  {
    if step.Member? then j.members[step.key] else j.items[step.index]
  }

  predicate Located(j: Json, at: Location)
    decreases at
  {
    at == [] || (HasChild(j, at[0]) && Located(Child(j, at[0]), at[1..]))
  }

  /** Every object and every non-empty array adds one level. */
  function Level(j: Json): nat {
    if j.Object? || (j.Array? && j.items != []) then 1 else 0
  }

  /** The levels passed on the way from the root to a location, both included. */
  function Chain(j: Json, at: Location): nat
    requires Located(j, at)
    decreases at
  {
    Level(j) + (if at == [] then 0 else Chain(Child(j, at[0]), at[1..]))
  }

  /** The depth of a document is the length of its longest chain. */
  ghost predicate IsDepth(j: Json, depth: nat) {
    && (forall at :: Located(j, at) ==> Chain(j, at) <= depth)
    && (exists at :: Located(j, at) && Chain(j, at) == depth)
  }

  /** The location ends with a member of an object. */
  predicate IsProperty(j: Json, at: Location) {
    at != [] && at[|at| - 1].Member? && Located(j, at)
  }

  ghost predicate AreTheProperties(j: Json, found: set<Location>) {
    forall at :: at in found <==> IsProperty(j, at)
  }

  /** The number of members of all objects anywhere in the document. */
  ghost predicate IsPropertyCount(j: Json, count: nat) {
    exists found :: AreTheProperties(j, found) && |found| == count
  }

  /** Depth and property count belong to the document alone, whatever order its members are visited in. */
  lemma MeasuresAreUnique(j: Json, depth: nat, depth': nat, count: nat, count': nat)
    requires IsDepth(j, depth) && IsDepth(j, depth') && IsPropertyCount(j, count) && IsPropertyCount(j, count')
    ensures depth == depth' && count == count'
  {
    var found :| AreTheProperties(j, found) && |found| == count;
    var found' :| AreTheProperties(j, found') && |found'| == count';
    assert found == found';
  }

  // ----- One more level on top of a child -----

  function Below(step: Step, found: set<Location>): set<Location> {
    set at | at in found :: [step] + at
  }

  lemma {:induction false} BelowKeepsCount(step: Step, found: set<Location>)
    ensures |Below(step, found)| == |found|
  {
    if found != {} {
      var at :| at in found;
      BelowKeepsCount(step, found - {at});
      assert forall other :: other in found ==> ([step] + other)[1..] == other;
      assert Below(step, found) == Below(step, found - {at}) + {[step] + at};
    }
  }

  /** The properties strictly inside the children reached by the given steps. */
  ghost predicate AreInside(j: Json, steps: set<Step>, found: set<Location>) {
    forall at :: at in found <==> |at| > 1 && at[0] in steps && IsProperty(j, at)
  }

  lemma AddChild(j: Json, steps: set<Step>, found: set<Location>, step: Step, inChild: set<Location>)
    requires HasChild(j, step) && step !in steps
    requires AreInside(j, steps, found) && AreTheProperties(Child(j, step), inChild)
    ensures AreInside(j, steps + {step}, found + Below(step, inChild))
    ensures |found + Below(step, inChild)| == |found| + |inChild|
  {
    BelowKeepsCount(step, inChild);
    assert found !! Below(step, inChild);
    forall at: Location
      ensures at in found + Below(step, inChild)
              <==> |at| > 1 && at[0] in steps + {step} && IsProperty(j, at)
    {
      if |at| > 1 && at[0] == step {
        assert at == [step] + at[1..];
        assert IsProperty(j, at) <==> IsProperty(Child(j, step), at[1..]);
      }
    }
  }

  lemma NothingIsInside(j: Json)
    ensures AreInside(j, {}, {})
  {
  }

  function MemberSteps(keys: set<string>): set<Step> {
    set key | key in keys :: Member(key)
  }

  lemma NoSteps()
    ensures MemberSteps({}) == {}
  {
  }

  lemma OneMoreMember(keys: set<string>, key: string)
    ensures MemberSteps(keys + {key}) == MemberSteps(keys) + {Member(key)}
    ensures key !in keys ==> Member(key) !in MemberSteps(keys)
  {
  }

  function ItemSteps(n: nat): set<Step> {
    set i | 0 <= i < n :: Item(i)
  }

  lemma NoItemSteps()
    ensures ItemSteps(0) == {}
  {
  }

  lemma OneMoreItem(n: nat)
    ensures ItemSteps(n + 1) == ItemSteps(n) + {Item(n)} && Item(n) !in ItemSteps(n)
  {
  }

  function OwnMembers(keys: set<string>): set<Location> {
    set key | key in keys :: [Member(key)]
  }

  lemma {:induction false} OwnMembersAreCounted(keys: set<string>)
    ensures |OwnMembers(keys)| == |keys|
  {
    if keys != {} {
      var key :| key in keys;
      var rest := keys - {key};
      OwnMembersAreCounted(rest);
      assert OwnMembers(keys) == OwnMembers(rest) + {[Member(key)]};
      assert forall k :: k in rest ==> [Member(k)][0] != [Member(key)][0];
      assert [Member(key)] !in OwnMembers(rest);
    }
  }

  lemma NestedPropertiesStartWithAChild(j: Json, at: Location)
    requires IsProperty(j, at)
    ensures at != []
    ensures at[0].Member? ==> j.Object? && at[0] in MemberSteps(j.members.Keys)
    ensures at[0].Item? ==> j.Array? && at[0] in ItemSteps(|j.items|) && |at| > 1
  {
  }

  lemma OwnProperties(j: Json, at: Location)
    requires j.Object?
    ensures at in OwnMembers(j.members.Keys) <==> |at| == 1 && IsProperty(j, at)
  {
    if |at| == 1 && at[0].Member? {
      assert at == [Member(at[0].key)];
      assert at[1..] == [];
      if HasChild(j, at[0]) {
        assert Located(Child(j, at[0]), at[1..]);
      }
    }
  }

  /** A property is one of the object's own members, or inside one of them, and never both. */
  lemma OwnOrInner(j: Json, found: set<Location>, at: Location)
    requires j.Object? && AreInside(j, MemberSteps(j.members.Keys), found)
    ensures IsProperty(j, at) <==> at in OwnMembers(j.members.Keys) || at in found
    ensures !(at in OwnMembers(j.members.Keys) && at in found)
  {
    OwnProperties(j, at);
    if IsProperty(j, at) {
      NestedPropertiesStartWithAChild(j, at);
    }
    hide OwnMembers, Located;
  }

  /** The properties of an object are its own members and what is inside them. */
  lemma PropertiesOfObject(j: Json, found: set<Location>)
    requires j.Object? && AreInside(j, MemberSteps(j.members.Keys), found)
    ensures IsPropertyCount(j, |j.members| + |found|)
  {
    hide OwnMembers, MemberSteps, IsProperty, AreInside;
    var own := OwnMembers(j.members.Keys);
    OwnMembersAreCounted(j.members.Keys);
    forall at: Location
      ensures IsProperty(j, at) <==> at in own || at in found
      ensures !(at in own && at in found)
    {
      OwnOrInner(j, found, at);
    }
    assert own !! found;
    assert AreTheProperties(j, own + found);
  }

  lemma PropertiesOfArray(j: Json, found: set<Location>)
    requires j.Array? && AreInside(j, ItemSteps(|j.items|), found)
    ensures IsPropertyCount(j, |found|)
  {
  }

  // ----- The code -----

  /**
   The chains through some of the children go no deeper than the depth found, and one chain of the
   document reaches it.
   */
  ghost predicate Covers(j: Json, steps: set<Step>, depth: int, deepest: Location) {
    && Located(j, deepest) && Chain(j, deepest) == depth
    && (forall at :: Located(j, at) && (at == [] || at[0] in steps) ==> Chain(j, at) <= depth)
  }

  lemma RootIsCovered(j: Json)
    ensures Covers(j, {}, Level(j), [])
  {
  }

  lemma CoveredIsDepth(j: Json, steps: set<Step>, depth: nat, deepest: Location)
    requires Covers(j, steps, depth, deepest)
    requires steps == if j.Object? then MemberSteps(j.members.Keys) else if j.Array? then ItemSteps(|j.items|) else {}
    ensures IsDepth(j, depth)
  {
  }

  lemma CoverChild(j: Json, steps: set<Step>, depth: int, deepest: Location, step: Step, childDepth: nat)
    returns (deepest': Location)
    requires HasChild(j, step)
    requires Covers(j, steps, depth, deepest) && IsDepth(Child(j, step), childDepth)
    ensures Covers(j, steps + {step}, if childDepth + 1 > depth then childDepth + 1 else depth, deepest')
  {
    var below :| Located(Child(j, step), below) && Chain(Child(j, step), below) == childDepth;
    assert ([step] + below)[1..] == below;
    deepest' := if childDepth + 1 > depth then [step] + below else deepest;
  }

  /** getJSONComplexity: members are visited in whatever order the map yields them. */
  method GetJSONComplexity(obj: Json, currentDepth: int) returns (maxDepth: int, propCount: nat)
    ensures maxDepth >= currentDepth && IsDepth(obj, maxDepth - currentDepth)
    ensures IsPropertyCount(obj, propCount)
    decreases obj
  {
    match obj {
      case Object(_) => maxDepth, propCount := VisitMembers(obj, currentDepth);
      case Array(_) => maxDepth, propCount := VisitItems(obj, currentDepth);
      case _ =>
        maxDepth, propCount := currentDepth, 0;
        RootIsCovered(obj);
        CoveredIsDepth(obj, {}, 0, []);
        assert AreTheProperties(obj, {});
    }
  }

  /** The case of an object. */
  method VisitMembers(obj: Json, currentDepth: int) returns (maxDepth: int, propCount: nat)
    requires obj.Object?
    ensures maxDepth >= currentDepth && IsDepth(obj, maxDepth - currentDepth)
    ensures IsPropertyCount(obj, propCount)
    decreases obj, 0
  {
    hide AreInside, Covers, IsDepth, AreTheProperties, Below, Located, Chain, MemberSteps;
    var currentObjectDepth := currentDepth + 1;
    maxDepth, propCount := currentObjectDepth, |obj.members|;
    var rest := obj.members.Keys;
    ghost var steps: set<Step>, found: set<Location>, deepest: Location := {}, {}, [];
    NothingIsInside(obj);
    RootIsCovered(obj);
    NoSteps();
    assert obj.members.Keys - rest == {};
    while rest != {}
      invariant rest <= obj.members.Keys
      invariant steps == MemberSteps(obj.members.Keys - rest)
      invariant AreInside(obj, steps, found) && propCount == |obj.members| + |found|
      invariant maxDepth > currentDepth && Covers(obj, steps, maxDepth - currentDepth, deepest)
    {
      var key :| key in rest;
      ghost var visited := obj.members.Keys - rest;
      OneMoreMember(visited, key);
      var childDepth, childProps := GetJSONComplexity(obj.members[key], currentObjectDepth);
      ghost var inChild :| AreTheProperties(obj.members[key], inChild) && |inChild| == childProps;
      AddChild(obj, steps, found, Member(key), inChild);
      deepest := CoverChild(obj, steps, maxDepth - currentDepth, deepest, Member(key), childDepth - currentObjectDepth);
      steps, found := steps + {Member(key)}, found + Below(Member(key), inChild);
      if childDepth > maxDepth {
        maxDepth := childDepth;
      }
      propCount := propCount + childProps;
      rest := rest - {key};
      assert obj.members.Keys - rest == visited + {key};
    }
    assert obj.members.Keys - rest == obj.members.Keys;
    PropertiesOfObject(obj, found);
    CoveredIsDepth(obj, steps, maxDepth - currentDepth, deepest);
  }

  /** The case of an array. */
  method VisitItems(obj: Json, currentDepth: int) returns (maxDepth: int, propCount: nat)
    requires obj.Array?
    ensures maxDepth >= currentDepth && IsDepth(obj, maxDepth - currentDepth)
    ensures IsPropertyCount(obj, propCount)
    decreases obj, 0
  {
    hide AreInside, Covers, IsDepth, AreTheProperties, Below, Located, Chain, ItemSteps;
    var currentArrayDepth := currentDepth + 1;
    maxDepth, propCount := currentDepth, 0;
    ghost var steps: set<Step>, found: set<Location>, deepest: Location := {}, {}, [];
    NothingIsInside(obj);
    RootIsCovered(obj);
    NoItemSteps();
    for i := 0 to |obj.items|
      invariant steps == ItemSteps(i)
      invariant AreInside(obj, steps, found) && propCount == |found|
      invariant if i == 0 then maxDepth == currentDepth else maxDepth > currentDepth
      invariant Covers(obj, steps, if i == 0 then Level(obj) else maxDepth - currentDepth, deepest)
    {
      OneMoreItem(i);
      var childDepth, childProps := GetJSONComplexity(obj.items[i], currentArrayDepth);
      ghost var inChild :| AreTheProperties(obj.items[i], inChild) && |inChild| == childProps;
      AddChild(obj, steps, found, Item(i), inChild);
      deepest := CoverChild(obj, steps, if i == 0 then Level(obj) else maxDepth - currentDepth, deepest, Item(i),
                            childDepth - currentArrayDepth);
      steps, found := steps + {Item(i)}, found + Below(Item(i), inChild);
      if childDepth > maxDepth {
        maxDepth := childDepth;
      }
      propCount := propCount + childProps;
    }
    PropertiesOfArray(obj, found);
    CoveredIsDepth(obj, steps, maxDepth - currentDepth, deepest);
  }

  /**
   validateJSONStructure: a non-empty text is accepted exactly when it decodes, no chain of its
   document is longer than the depth limit and its properties are within theirs.
   */
  method ValidateJSONStructure(text: string, decode: string -> Option<Json>) returns (accepted: bool)
    ensures text == "" ==> accepted
    ensures text != "" && decode(text).None? ==> !accepted
    ensures text != "" && decode(text).Some? ==>
              var j := decode(text).value;
              accepted <==>
                && (forall at :: Located(j, at) ==> Chain(j, at) <= MAX_JSON_DEPTH)
                && (exists found :: AreTheProperties(j, found) && |found| <= MAX_JSON_PROPERTIES)
  {
    if text == "" {
      return true;
    }
    var obj := decode(text);
    if obj.None? {
      return false;
    }
    var depth, propCount := GetJSONComplexity(obj.value, 0);
    accepted := depth <= MAX_JSON_DEPTH && propCount <= MAX_JSON_PROPERTIES;
    assert !accepted && depth > MAX_JSON_DEPTH ==>
        exists at :: Located(obj.value, at) && Chain(obj.value, at) > MAX_JSON_DEPTH;
    ghost var properties :| AreTheProperties(obj.value, properties) && |properties| == propCount;
    assert forall found :: AreTheProperties(obj.value, found) ==> found == properties;
  }
}
