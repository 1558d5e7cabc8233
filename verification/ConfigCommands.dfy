/**
 The configuration commands of the in-band manageability daemon: load, get, and the set,
 append and remove commands that edit several key:value pairs and rewrite the file only when
 the outcome satisfies the schema. The file holds a decoded document; validity against the
 schema is a parameter.
 */
module ConfigCommands {
  import opened Wrappers
  import opened Text
  import opened Json
  import opened JsonPaths
  import Decimal

  datatype Error =
    | Unreadable
    | BadFormat
    | BadPath(reason: PathError)
    | PathNotAllowed
    | NotAList
    | EmptyPath
    | SchemaViolation
    | WriteFailed
    | Panicked  // an assignment to the nil map that the document null decodes to

  datatype Kind = SetValue | AppendItem | RemoveItem

  type Schema = Json -> bool

  /** The key:value texts of a command: split at semicolons, trimmed, blanks skipped. */
  function Pairs(texts: seq<string>): seq<string> {
    if texts == [] then []
    else Pairs(texts[..|texts| - 1])
         + (if TrimSpace(texts[|texts| - 1]) == "" then [] else [TrimSpace(texts[|texts| - 1])])
  }

  function PairsOf(keyValues: string): seq<string> {
    Pairs(Split(keyValues, ';'))
  }

  /** An int if it parses as one, else a bool if it does, else the text itself. */
  function ParseValue(value: string): Json {
    if Decimal.Atoi(value).Some? then Number(Decimal.Atoi(value).value)
    else if Decimal.ParseBool(value).Some? then Bool(Decimal.ParseBool(value).value)
    else Json.Text(value)
  }

  predicate IsListName(name: string) {
    name == "sotaSW" || name == "trustedRepositories"
  }

  predicate IsAppendRemovePathAllowed(key: string) {
    var parts := Split(key, '.');
    IsListName(TrimSpace(parts[|parts| - 1]))
  }

  function WithoutItem(items: seq<Json>, item: Json): seq<Json> {
    if items == [] then []
    else WithoutItem(items[..|items| - 1], item) + (if items[|items| - 1] == item then [] else [items[|items| - 1]])
  }

  function EditList(kind: Kind, items: seq<Json>, value: string): seq<Json> {
    if kind.AppendItem? then items + [Json.Text(value)] else WithoutItem(items, Json.Text(value))
  }

  function SetOrError(m: Members, key: string, value: Json): Result<Members, Error> {
    var (m', ok) := SetDotted(m, key, value);
    if ok then Ok(m') else Err(if TrimSpace(key) == "" then EmptyPath else BadPath(InvalidPath))
  }

  /** One pair applied to the document in memory. */
  function Apply(kind: Kind, m: Members, pair: string): Result<Members, Error> {
    match Cut(pair, ':')
    case None => Err(BadFormat)
    case Some((key, value)) =>
      if kind.SetValue? then SetOrError(m, key, ParseValue(value))
      else if !IsAppendRemovePathAllowed(key) then Err(PathNotAllowed)
      else match GetDotted(m, key)
        case Err(reason) => Err(BadPath(reason))
        case Ok(target) =>
          if !target.Array? then Err(NotAList)
          else SetOrError(m, key, Array(EditList(kind, target.items, value)))
  }

  /** All pairs in order; the first failure ends the command. */
  function ApplyAll(kind: Kind, m: Members, pairs: seq<string>): Result<Members, Error> {
    if pairs == [] then Ok(m)
    else match ApplyAll(kind, m, pairs[..|pairs| - 1])
      case Err(e) => Err(e)
      case Ok(m') => Apply(kind, m', pairs[|pairs| - 1])
  }

  /** What the first pair meets in a nil map: nothing to read, and a panic on assignment. */
  function NilError(kind: Kind, pair: string): Error {
    match Cut(pair, ':')
    case None => BadFormat
    case Some((key, _)) =>
      if kind.SetValue? then if TrimSpace(key) == "" then EmptyPath else Panicked
      else if !IsAppendRemovePathAllowed(key) then PathNotAllowed
      else BadPath(PathNotFound)
  }

  /** The document null: only a command without pairs gets as far as writing it back. */
  function EditNil(kind: Kind, schema: Schema, pairs: seq<string>, writes: bool): Option<Error> {
    if pairs != [] then Some(NilError(kind, pairs[0]))
    else if !schema(Null) then Some(SchemaViolation)
    else if !writes then Some(WriteFailed)
    else None
  }

  /** The stored document after an editing command, and the error it reports. */
  function Edit(kind: Kind, schema: Schema, file: Option<Json>, keyValues: string, writes: bool)
    : (Option<Json>, Option<Error>)
  {
    if file.None? || !(file.value.Object? || file.value.Null?) then (file, Some(Unreadable))
    else if file.value.Null? then (file, EditNil(kind, schema, PairsOf(keyValues), writes))
    else match ApplyAll(kind, file.value.members, PairsOf(keyValues))
      case Err(e) => (file, Some(e))
      case Ok(m) =>
        if !schema(Object(m)) then (file, Some(SchemaViolation))
        else if !writes then (file, Some(WriteFailed))
        else (Some(Object(m)), None)
  }

  datatype Command =
    | Load(input: Option<Json>, verified: bool, writes: bool)
    | Edits(kind: Kind, keyValues: string, writes: bool)

  function After(schema: Schema, file: Option<Json>, c: Command): Option<Json> {
    match c
    case Load(input, verified, writes) =>
      if verified && input.Some? && schema(input.value) && writes then input else file
    case Edits(kind, keyValues, writes) => Edit(kind, schema, file, keyValues, writes).0
  }

  function AfterAll(schema: Schema, file: Option<Json>, commands: seq<Command>): Option<Json> {
    if commands == [] then file
    else After(schema, AfterAll(schema, file, commands[..|commands| - 1]), commands[|commands| - 1])
  }

  /** Whatever commands run, a stored document is the initial one or satisfies the schema. */
  lemma {:induction false} StoredConfigStaysValid(schema: Schema, file: Option<Json>, commands: seq<Command>)
    ensures AfterAll(schema, file, commands) == file
            || (AfterAll(schema, file, commands).Some? && schema(AfterAll(schema, file, commands).value))
  {
    hide ApplyAll, PairsOf;
    if commands != [] {
      StoredConfigStaysValid(schema, file, commands[..|commands| - 1]);
    }
  }

  // ----- Append and Remove -----

  lemma WithoutItemOfConcat(items: seq<Json>, last: Json, item: Json)
    ensures WithoutItem(items + [last], item) == WithoutItem(items, item) + (if last == item then [] else [last])
  {
  }

  lemma {:induction false} WithoutItemIsGone(items: seq<Json>, item: Json)
    ensures item !in WithoutItem(items, item)
    ensures item !in items ==> WithoutItem(items, item) == items
  {
    if items != [] {
      var init, last := items[..|items| - 1], items[|items| - 1];
      WithoutItemIsGone(init, item);
      hide WithoutItem;
      assert items == init + [last];
      WithoutItemOfConcat(init, last, item);
    }
  }

  /** A list edit at a key: what it finds there and what it leaves. */
  predicate EditsListAt(m: Members, pair: string) {
    && Cut(pair, ':').Some?
    && IsAppendRemovePathAllowed(Cut(pair, ':').value.0)
    && GetDotted(m, Cut(pair, ':').value.0).Ok?
    && GetDotted(m, Cut(pair, ':').value.0).value.Array?
  }

  function KeyOf(pair: string): string
    requires Cut(pair, ':').Some?
  {
    Cut(pair, ':').value.0
  }

  function ValueOf(pair: string): string
    requires Cut(pair, ':').Some?
  {
    Cut(pair, ':').value.1
  }

  function ListAt(m: Members, pair: string): seq<Json>
    requires EditsListAt(m, pair)
  {
    GetDotted(m, KeyOf(pair)).value.items
  }

  lemma AllowedIsNotBlank(key: string)
    requires IsAppendRemovePathAllowed(key)
    ensures TrimSpace(key) != ""
  {
    if TrimSpace(key) == "" {
      BlankHasNoDot(key);
      SplitOfFree(key, '.');
    }
  }

  lemma BlankHasNoDot(s: string)
    requires TrimSpace(s) == ""
    ensures '.' !in s
  {
    TrimKeeps(s, IsSpace, '.');
  }

  lemma {:induction false} TrimStartKeeps(s: string, cut: char -> bool, c: char)
    requires !cut(c) && c in s
    ensures c in TrimStart(s, cut)
  {
    if cut(s[0]) {
      TrimStartKeeps(s[1..], cut, c);
    }
  }

  lemma {:induction false} TrimEndKeeps(s: string, cut: char -> bool, c: char)
    requires !cut(c) && c in s
    ensures c in TrimEnd(s, cut)
  {
    if cut(s[|s| - 1]) {
      assert s == s[..|s| - 1] + [s[|s| - 1]];
      TrimEndKeeps(s[..|s| - 1], cut, c);
    }
  }

  /** Trimming never removes a character that is not cut. */
  lemma TrimKeeps(s: string, cut: char -> bool, c: char)
    requires !cut(c)
    ensures c in s ==> c in Trim(s, cut)
  {
    if c in s {
      TrimStartKeeps(s, cut, c);
      TrimEndKeeps(TrimStart(s, cut), cut, c);
    }
  }

  /** A path that can be read can be written. */
  lemma {:induction false} ReadableIsWritable(m: Members, path: Path, value: Json)
    requires path != [] && Get(Object(m), path).Ok?
    ensures Set(m, path, value).1
    decreases path
  {
    if |path| > 1 {
      ReadableIsWritable(m[path[0]].members, path[1..], value);
    }
  }

  /** A list edit succeeds exactly when there is a list at an allowed key, and then replaces just that list. */
  lemma ListEdit(kind: Kind, m: Members, pair: string)
    requires !kind.SetValue?
    ensures Apply(kind, m, pair).Ok? <==> EditsListAt(m, pair)
    ensures EditsListAt(m, pair) ==>
              && Set(m, PathOf(KeyOf(pair)), Array(EditList(kind, ListAt(m, pair), ValueOf(pair)))).1
              && Apply(kind, m, pair).value
                   == Set(m, PathOf(KeyOf(pair)), Array(EditList(kind, ListAt(m, pair), ValueOf(pair)))).0
              && EditsListAt(Apply(kind, m, pair).value, pair)
              && ListAt(Apply(kind, m, pair).value, pair) == EditList(kind, ListAt(m, pair), ValueOf(pair))
  {
    if EditsListAt(m, pair) {
      var path, list := PathOf(KeyOf(pair)), Array(EditList(kind, ListAt(m, pair), ValueOf(pair)));
      AllowedIsNotBlank(KeyOf(pair));
      ReadableIsWritable(m, path, list);
      SetThenGet(m, path, list);
    }
  }

  /** Two paths that both hold lists are equal or unrelated. */
  lemma {:induction false} ListsAreUnrelated(j: Json, p: Path, q: Path)
    requires Get(j, p).Ok? && Get(j, p).value.Array? && Get(j, q).Ok? && Get(j, q).value.Array?
    requires p <= q
    ensures p == q
    decreases p
  {
    if p != [] {
      ListsAreUnrelated(j.members[p[0]], p[1..], q[1..]);
      assert p == [p[0]] + p[1..] && q == [q[0]] + q[1..];
    }
  }

  lemma ListPathsRelate(m: Members, p: Path, q: Path)
    requires Get(Object(m), p).Ok? && Get(Object(m), p).value.Array?
    requires Get(Object(m), q).Ok? && Get(Object(m), q).value.Array?
    ensures p == q || !Related(p, q)
  {
    if p <= q { ListsAreUnrelated(Object(m), p, q); }
    if q <= p { ListsAreUnrelated(Object(m), q, p); }
  }

  /** Removing what a pair has appended is removing from the original. */
  lemma RemoveAbsorbsOwnAppend(m: Members, pair: string)
    requires EditsListAt(m, pair)
    ensures Apply(AppendItem, m, pair).Ok?
    ensures Apply(RemoveItem, Apply(AppendItem, m, pair).value, pair) == Apply(RemoveItem, m, pair)
  {
    ListEdit(AppendItem, m, pair);
    ListEdit(RemoveItem, m, pair);
    var appended := Apply(AppendItem, m, pair).value;
    ListEdit(RemoveItem, appended, pair);
    var path, items, item := PathOf(KeyOf(pair)), ListAt(m, pair), Json.Text(ValueOf(pair));
    WithoutItemOfConcat(items, item, item);
    assert WithoutItem(items + [item], item) == WithoutItem(items, item);
    LaterSetWins(m, path, Array(items + [item]), Array(WithoutItem(items, item)));
  }

  /** A list edit leaves the other pairs' lists in place, changed only if it is the same list. */
  lemma OtherListsStay(kind: Kind, m: Members, pair: string, other: string)
    requires !kind.SetValue? && EditsListAt(m, pair) && EditsListAt(m, other)
    ensures Apply(kind, m, pair).Ok? && EditsListAt(Apply(kind, m, pair).value, other)
    ensures ListAt(Apply(kind, m, pair).value, other)
         == if PathOf(KeyOf(pair)) == PathOf(KeyOf(other)) then EditList(kind, ListAt(m, pair), ValueOf(pair))
            else ListAt(m, other)
  {
    ListEdit(kind, m, pair);
    var p, q := PathOf(KeyOf(pair)), PathOf(KeyOf(other));
    ListPathsRelate(m, p, q);
    var list := Array(EditList(kind, ListAt(m, pair), ValueOf(pair)));
    if p == q {
      SetThenGet(m, p, list);
    } else {
      SetKeepsUnrelated(m, p, list, q);
    }
  }

  lemma PairIsItsParts(a: string, b: string)
    requires Cut(a, ':').Some? && Cut(b, ':').Some? && a != b
    requires PathOf(KeyOf(a)) == PathOf(KeyOf(b))
    ensures ValueOf(a) != ValueOf(b)
  {
    JoinOfSplit(KeyOf(a), '.');
    JoinOfSplit(KeyOf(b), '.');
    CutIsConcat(a, ':');
    CutIsConcat(b, ':');
  }

  /** Removing one pair and appending a different one commute. */
  lemma RemoveCommutesWithAppend(m: Members, removed: string, appended: string)
    requires removed != appended && EditsListAt(m, removed) && EditsListAt(m, appended)
    ensures Apply(AppendItem, m, appended).Ok? && Apply(RemoveItem, m, removed).Ok?
    ensures Apply(RemoveItem, Apply(AppendItem, m, appended).value, removed)
         == Apply(AppendItem, Apply(RemoveItem, m, removed).value, appended)
  {
    OtherListsStay(AppendItem, m, appended, removed);
    OtherListsStay(RemoveItem, m, removed, appended);
    var m1, m2 := Apply(AppendItem, m, appended).value, Apply(RemoveItem, m, removed).value;
    ListEdit(AppendItem, m, appended);
    ListEdit(RemoveItem, m, removed);
    ListEdit(RemoveItem, m1, removed);
    ListEdit(AppendItem, m2, appended);
    var p, q := PathOf(KeyOf(removed)), PathOf(KeyOf(appended));
    var gone, added := Json.Text(ValueOf(removed)), Json.Text(ValueOf(appended));
    var items, others := ListAt(m, removed), ListAt(m, appended);
    if p == q {
      PairIsItsParts(removed, appended);
      WithoutItemOfConcat(items, added, gone);
      LaterSetWins(m, p, Array(items + [added]), Array(WithoutItem(items + [added], gone)));
      LaterSetWins(m, p, Array(WithoutItem(items, gone)), Array(WithoutItem(items, gone) + [added]));
    } else {
      ListPathsRelate(m, p, q);
      SetsCommute(m, q, Array(others + [added]), p, Array(WithoutItem(items, gone)));
    }
  }

  predicate AllEditLists(m: Members, pairs: seq<string>) {
    forall i :: 0 <= i < |pairs| ==> EditsListAt(m, pairs[i])
  }

  /** Applying list edits keeps every other pair editable and succeeds on all of them. */
  lemma {:induction false} ListEditsApply(kind: Kind, m: Members, pairs: seq<string>, others: seq<string>)
    requires !kind.SetValue? && AllEditLists(m, pairs) && AllEditLists(m, others)
    ensures ApplyAll(kind, m, pairs).Ok?
    ensures AllEditLists(ApplyAll(kind, m, pairs).value, others)
    decreases |pairs|
  {
    hide Apply, EditsListAt;
    if pairs != [] {
      var init, last := pairs[..|pairs| - 1], pairs[|pairs| - 1];
      ListEditsApply(kind, m, init, others);
      ListEditsApply(kind, m, init, [last]);
      var m' := ApplyAll(kind, m, init).value;
      assert EditsListAt(m', [last][0]);
      ListEdit(kind, m', last);
      forall i | 0 <= i < |others|
        ensures EditsListAt(Apply(kind, m', last).value, others[i])
      {
        OtherListsStay(kind, m', last, others[i]);
      }
    }
  }

  /** The pairs of a successful list command all find their lists in the original document. */
  lemma {:induction false} AppliedPairsEditLists(kind: Kind, m: Members, pairs: seq<string>)
    requires !kind.SetValue? && ApplyAll(kind, m, pairs).Ok?
    ensures AllEditLists(m, pairs)
  {
    hide Apply, EditsListAt;
    if pairs != [] {
      var init, last := pairs[..|pairs| - 1], pairs[|pairs| - 1];
      assert ApplyAll(kind, m, init).Ok?;
      var m' := ApplyAll(kind, m, init).value;
      assert Apply(kind, m', last).Ok?;
      hide ApplyAll;
      AppliedPairsEditLists(kind, m, init);
      ListEdit(kind, m', last);
      EditsKeepErrors(kind, m, init, last);
      forall i | 0 <= i < |pairs|
        ensures EditsListAt(m, pairs[i])
      {
        if i < |init| {
          assert pairs[i] == init[i];
        }
      }
    }
  }

  /** List edits turn nothing else into a list: what can be edited after them could be before. */
  lemma {:induction false} EditsKeepErrors(kind: Kind, m: Members, pairs: seq<string>, other: string)
    requires !kind.SetValue? && AllEditLists(m, pairs) && ApplyAll(kind, m, pairs).Ok?
    requires EditsListAt(ApplyAll(kind, m, pairs).value, other)
    ensures EditsListAt(m, other)
    decreases |pairs|
  {
    if pairs != [] {
      var init, last := pairs[..|pairs| - 1], pairs[|pairs| - 1];
      assert AllEditLists(m, init);
      var m' := ApplyAll(kind, m, init).value;
      ListEdit(kind, m', last);
      var list := Array(EditList(kind, ListAt(m', last), ValueOf(last)));
      var p, q := PathOf(KeyOf(last)), PathOf(KeyOf(other));
      ListPathsRelate(ApplyAll(kind, m, pairs).value, p, q);
      if p != q {
        SetKeepsUnrelated(m', p, list, q);
      } else {
        assert EditsListAt(m', other);
      }
      EditsKeepErrors(kind, m, init, other);
    }
  }

  /** Removing all pairs does not see an append of one of them. */
  lemma {:induction false} RemovalsAbsorbAppend(m: Members, pairs: seq<string>, appended: string)
    requires AllEditLists(m, pairs) && appended in pairs
    ensures Apply(AppendItem, m, appended).Ok?
    ensures ApplyAll(RemoveItem, Apply(AppendItem, m, appended).value, pairs) == ApplyAll(RemoveItem, m, pairs)
    decreases |pairs|
  {
    hide Apply, EditsListAt;
    var init, last := pairs[..|pairs| - 1], pairs[|pairs| - 1];
    assert EditsListAt(m, appended);
    ListEdit(AppendItem, m, appended);
    var m' := Apply(AppendItem, m, appended).value;
    if appended in init {
      RemovalsAbsorbAppend(m, init, appended);
    } else {
      RemovalsCommuteWithAppend(m, init, appended);
      ListEditsApply(RemoveItem, m, init, [appended]);
      var n := ApplyAll(RemoveItem, m, init).value;
      assert EditsListAt(n, [appended][0]);
      assert last == appended;
      RemoveAbsorbsOwnAppend(n, appended);
    }
  }

  /** Removals of other pairs commute with an append. */
  lemma {:induction false} RemovalsCommuteWithAppend(m: Members, pairs: seq<string>, appended: string)
    requires AllEditLists(m, pairs) && EditsListAt(m, appended) && appended !in pairs
    ensures Apply(AppendItem, m, appended).Ok? && ApplyAll(RemoveItem, m, pairs).Ok?
    ensures ApplyAll(RemoveItem, Apply(AppendItem, m, appended).value, pairs)
         == Apply(AppendItem, ApplyAll(RemoveItem, m, pairs).value, appended)
    decreases |pairs|
  {
    hide Apply, EditsListAt;
    ListEdit(AppendItem, m, appended);
    ListEditsApply(RemoveItem, m, pairs, [appended]);
    if pairs != [] {
      var init, last := pairs[..|pairs| - 1], pairs[|pairs| - 1];
      RemovalsCommuteWithAppend(m, init, appended);
      ListEditsApply(RemoveItem, m, init, [last, appended]);
      var n := ApplyAll(RemoveItem, m, init).value;
      assert EditsListAt(n, [last, appended][0]) && EditsListAt(n, [last, appended][1]);
      RemoveCommutesWithAppend(n, last, appended);
    }
  }

  /** Removing what was just appended is removing from the original, however many pairs there are. */
  lemma {:induction false} RemoveAbsorbsAppend(m: Members, pairs: seq<string>, n: nat)
    requires n <= |pairs| && ApplyAll(AppendItem, m, pairs).Ok?
    ensures ApplyAll(AppendItem, m, pairs[..n]).Ok?
    ensures AllEditLists(ApplyAll(AppendItem, m, pairs[..n]).value, pairs)
    ensures ApplyAll(RemoveItem, ApplyAll(AppendItem, m, pairs[..n]).value, pairs) == ApplyAll(RemoveItem, m, pairs)
  {
    hide Apply, EditsListAt;
    AppliedPairsEditLists(AppendItem, m, pairs);
    ListEditsApply(AppendItem, m, pairs[..n], pairs);
    if n > 0 {
      RemoveAbsorbsAppend(m, pairs, n - 1);
      assert pairs[..n][..n - 1] == pairs[..n - 1];
      RemovalsAbsorbAppend(ApplyAll(AppendItem, m, pairs[..n - 1]).value, pairs, pairs[n - 1]);
    }
  }

  /** None of the values is in its list. */
  predicate AllAbsent(m: Members, pairs: seq<string>) {
    forall i :: 0 <= i < |pairs| ==>
      EditsListAt(m, pairs[i]) && Json.Text(ValueOf(pairs[i])) !in ListAt(m, pairs[i])
  }

  lemma {:induction false} RemovingAbsentChangesNothing(m: Members, pairs: seq<string>)
    requires AllAbsent(m, pairs)
    ensures ApplyAll(RemoveItem, m, pairs) == Ok(m)
  {
    if pairs != [] {
      var init, last := pairs[..|pairs| - 1], pairs[|pairs| - 1];
      RemovingAbsentChangesNothing(m, init);
      ListEdit(RemoveItem, m, last);
      WithoutItemIsGone(ListAt(m, last), Json.Text(ValueOf(last)));
      SetWhatIsThere(m, PathOf(KeyOf(last)), Array(ListAt(m, last)));
    }
  }

  /**
   Append and then remove with the same pairs, both successful: the file holds what removing
   from the original document yields, and the original itself when no value was present.
   */
  lemma AppendThenRemove(schema: Schema, m: Members, keyValues: string)
    requires Edit(AppendItem, schema, Some(Object(m)), keyValues, true).1.None?
    requires var appended := Edit(AppendItem, schema, Some(Object(m)), keyValues, true).0;
             Edit(RemoveItem, schema, appended, keyValues, true).1.None?
    ensures
      var appended := Edit(AppendItem, schema, Some(Object(m)), keyValues, true).0;
      var removed := Edit(RemoveItem, schema, appended, keyValues, true).0;
      && removed == Edit(RemoveItem, schema, Some(Object(m)), keyValues, true).0
      && (AllAbsent(m, PairsOf(keyValues)) ==> removed == Some(Object(m)))
  {
    var pairs := PairsOf(keyValues);
    RemoveAbsorbsAppend(m, pairs, |pairs|);
    assert pairs[..|pairs|] == pairs;
    if AllAbsent(m, pairs) {
      RemovingAbsentChangesNothing(m, pairs);
    }
  }

  /** With a single pair: the original with the value filtered from its one list. */
  lemma SingleAppendThenRemove(m: Members, pair: string)
    requires ApplyAll(AppendItem, m, [pair]).Ok?
    ensures EditsListAt(m, pair)
    ensures ApplyAll(RemoveItem, ApplyAll(AppendItem, m, [pair]).value, [pair])
         == Ok(Set(m, PathOf(KeyOf(pair)), Array(WithoutItem(ListAt(m, pair), Json.Text(ValueOf(pair))))).0)
  {
    RemoveAbsorbsAppend(m, [pair], 1);
    AppliedPairsEditLists(AppendItem, m, [pair]);
    assert [pair][..1] == [pair] && [pair][..0] == [];
    assert EditsListAt(m, [pair][0]);
    ListEdit(RemoveItem, m, pair);
    assert ApplyAll(RemoveItem, m, []) == Ok(m);
  }

  // ----- What the texts of a command mean -----

  /** Printed integers and booleans are stored as such; what parses as neither is stored as the text it is. */
  lemma ParsedValues(n: int, b: bool, value: string)
    ensures Decimal.IsInt64(n) ==> ParseValue(Decimal.Itoa(n)) == Number(n)
    ensures ParseValue(Decimal.FormatBool(b)) == Bool(b)
    ensures ParseValue(value) == Json.Text(value) <==> Decimal.Atoi(value).None? && Decimal.ParseBool(value).None?
    ensures ParseValue("1") == Number(1) && ParseValue("t") == Bool(true)
  {
    if Decimal.IsInt64(n) {
      Decimal.ItoaRoundTrip(n);
    }
    Decimal.ItoaRoundTrip(1);
    assert Decimal.Itoa(1) == "1";
    assert !Decimal.IsDigit("t"[0]) && !Decimal.IsDigit(Decimal.FormatBool(b)[0]);
    assert "t"[0] in "t" && Decimal.FormatBool(b)[0] in Decimal.FormatBool(b);
    hide Decimal.Itoa, Decimal.ValueOf;
  }

  /** Texts between semicolons are the pairs, in order; those that are neither blank nor padded as they are. */
  lemma PairsAreTheTexts(texts: seq<string>)
    requires texts != [] && forall i :: 0 <= i < |texts| ==> ';' !in texts[i]
    ensures PairsOf(Join(texts, ';')) == Pairs(texts)
    ensures (forall i :: 0 <= i < |texts| ==> texts[i] != "" && Bare(texts[i], IsSpace)) ==> Pairs(texts) == texts
  {
    SplitOfJoin(texts, ';');
    if forall i :: 0 <= i < |texts| ==> texts[i] != "" && Bare(texts[i], IsSpace) {
      BareTextsStay(texts);
    }
  }

  lemma {:induction false} BareTextsStay(texts: seq<string>)
    requires forall i :: 0 <= i < |texts| ==> texts[i] != "" && Bare(texts[i], IsSpace)
    ensures Pairs(texts) == texts
  {
    if texts != [] {
      BareTextsStay(texts[..|texts| - 1]);
      TrimFixesExactlyBare(texts[|texts| - 1], IsSpace);
      hide TrimSpace;
    }
  }

  lemma BlankTextsAreSkipped(texts: seq<string>, blank: string)
    requires TrimSpace(blank) == ""
    ensures Pairs(texts + [blank]) == Pairs(texts)
  {
    hide TrimSpace;
    assert (texts + [blank])[..|texts|] == texts;
  }

  /** Lists are edited under keys whose last part is one of two names, white space around it aside. */
  lemma AllowedByLastPart(parts: seq<string>)
    requires parts != [] && forall i :: 0 <= i < |parts| ==> '.' !in parts[i]
    ensures IsAppendRemovePathAllowed(Join(parts, '.'))
            <==> TrimSpace(parts[|parts| - 1]) == "sotaSW" || TrimSpace(parts[|parts| - 1]) == "trustedRepositories"
  {
    hide TrimSpace, Split, Join;
    SplitOfJoin(parts, '.');
    assert Split(Join(parts, '.'), '.') == parts;
  }

  /** No proper prefix of the path holds something that is not an object. */
  predicate Settable(m: Members, path: Path) {
    forall n :: 0 < n < |path| ==>
      Get(Object(m), path[..n]) == Err(PathNotFound)
      || (Get(Object(m), path[..n]).Ok? && Get(Object(m), path[..n]).value.Object?)
  }

  /** Which error a pair meets. */
  lemma PairErrors(kind: Kind, m: Members, pair: string)
    ensures Apply(kind, m, pair) == Err(BadFormat) <==> Cut(pair, ':').None?
    ensures Cut(pair, ':').Some? && kind.SetValue? ==>
              && (Apply(kind, m, pair) == Err(EmptyPath) <==> TrimSpace(KeyOf(pair)) == "")
              && (Apply(kind, m, pair) == Err(BadPath(InvalidPath))
                  <==> TrimSpace(KeyOf(pair)) != "" && !Settable(m, PathOf(KeyOf(pair))))
    ensures Cut(pair, ':').Some? && !kind.SetValue? ==>
              var (key, target) := (KeyOf(pair), GetDotted(m, KeyOf(pair)));
              && (Apply(kind, m, pair) == Err(PathNotAllowed) <==> !IsAppendRemovePathAllowed(key))
              && (Apply(kind, m, pair) == Err(NotAList)
                  <==> IsAppendRemovePathAllowed(key) && target.Ok? && !target.value.Array?)
              && (forall reason :: Apply(kind, m, pair) == Err(BadPath(reason))
                                   <==> IsAppendRemovePathAllowed(key) && target == Err(reason))
  {
    if Cut(pair, ':').Some? {
      if kind.SetValue? {
        SetSucceedsExactlyWhen(m, PathOf(KeyOf(pair)), ParseValue(ValueOf(pair)));
      } else {
        ListEdit(kind, m, pair);
      }
    }
    hide Cut, TrimSpace, Set, Get, ParseValue, EditList;
  }

  /** The first pair that fails ends the command with its error. */
  lemma {:induction false} FirstErrorIsReported(kind: Kind, m: Members, pairs: seq<string>, n: nat, e: Error)
    requires n < |pairs| && ApplyAll(kind, m, pairs[..n]).Ok?
    requires Apply(kind, ApplyAll(kind, m, pairs[..n]).value, pairs[n]) == Err(e)
    ensures ApplyAll(kind, m, pairs) == Err(e)
    decreases |pairs|
  {
    hide Apply;
    var init := pairs[..|pairs| - 1];
    if n < |init| {
      assert init[..n] == pairs[..n] && init[n] == pairs[n];
      FirstErrorIsReported(kind, m, init, n, e);
    } else {
      assert pairs[..n] == init;
    }
  }

  /** A nil map acts as an empty document would, except that a set that would succeed panics. */
  lemma NilMapActsEmpty(kind: Kind, pair: string)
    ensures Apply(kind, map[], pair).Err? ==> NilError(kind, pair) == Apply(kind, map[], pair).error
    ensures Apply(kind, map[], pair).Ok? <==> NilError(kind, pair) == Panicked
  {
    if Cut(pair, ':').Some? {
      SetUnderNothing(PathOf(KeyOf(pair)), ParseValue(ValueOf(pair)));
    }
    hide Cut, TrimSpace, ParseValue, EditList;
  }

  // ----- When a command succeeds, and what it leaves -----

  function PathAt(pair: string): Path
    requires Cut(pair, ':').Some?
  {
    PathOf(KeyOf(pair))
  }

  predicate WellFormed(pairs: seq<string>) {
    forall i :: 0 <= i < |pairs| ==> Cut(pairs[i], ':').Some?
  }

  /** All keys can be set in the original document, and none leads to a later one. */
  predicate AllSettable(m: Members, pairs: seq<string>) {
    && WellFormed(pairs)
    && (forall i :: 0 <= i < |pairs| ==> TrimSpace(KeyOf(pairs[i])) != "" && Settable(m, PathAt(pairs[i])))
    && (forall i, j :: 0 <= i < j < |pairs| ==> !(PathAt(pairs[i]) < PathAt(pairs[j])))
  }

  /** A well-formed pair with a key sets its value as any other set does. */
  lemma SetPair(m: Members, pair: string)
    ensures Apply(SetValue, m, pair).Ok? <==>
              Cut(pair, ':').Some? && TrimSpace(KeyOf(pair)) != "" && Set(m, PathAt(pair), ParseValue(ValueOf(pair))).1
    ensures Apply(SetValue, m, pair).Ok? ==>
              Apply(SetValue, m, pair).value == Set(m, PathAt(pair), ParseValue(ValueOf(pair))).0
  {
  }

  lemma LastApplied(kind: Kind, m: Members, pairs: seq<string>)
    requires pairs != [] && ApplyAll(kind, m, pairs).Ok?
    ensures var init := ApplyAll(kind, m, pairs[..|pairs| - 1]);
            init.Ok? && Apply(kind, init.value, pairs[|pairs| - 1]) == ApplyAll(kind, m, pairs)
  {
  }

  lemma ParsedIsNoObject(value: string)
    ensures !ParseValue(value).Object?
  {
  }

  predicate NoneLeadsTo(pairs: seq<string>, path: Path)
    requires WellFormed(pairs)
  {
    forall i :: 0 <= i < |pairs| ==> !(PathAt(pairs[i]) < path)
  }

  lemma NoneOfOneMoreLeads(pairs: seq<string>, path: Path)
    requires pairs != [] && Cut(pairs[|pairs| - 1], ':').Some? && WellFormed(pairs[..|pairs| - 1])
    ensures WellFormed(pairs)
    ensures NoneLeadsTo(pairs, path)
            <==> NoneLeadsTo(pairs[..|pairs| - 1], path) && !(PathAt(pairs[|pairs| - 1]) < path)
  {
    hide PathAt, Cut;
    var init, last := pairs[..|pairs| - 1], pairs[|pairs| - 1];
    assert forall i :: 0 <= i < |init| ==> init[i] == pairs[i];
    assert forall i :: 0 <= i < |pairs| ==> i < |init| || pairs[i] == last;
  }

  /** After successful sets, a path can be set exactly when it could be before and no key leads to it. */
  lemma {:induction false} SetsBlockExactlyBelow(m: Members, pairs: seq<string>, path: Path, value: Json)
    requires ApplyAll(SetValue, m, pairs).Ok? && path != []
    ensures WellFormed(pairs)
    ensures Set(ApplyAll(SetValue, m, pairs).value, path, value).1
            <==> Set(m, path, value).1 && NoneLeadsTo(pairs, path)
    decreases |pairs|
  {
    if pairs == [] {
      assert ApplyAll(SetValue, m, pairs) == Ok(m);
    } else {
      var init, last := pairs[..|pairs| - 1], pairs[|pairs| - 1];
      LastApplied(SetValue, m, pairs);
      hide ApplyAll, Set, PathAt, ParseValue, Cut, NoneLeadsTo;
      SetsBlockExactlyBelow(m, init, path, value);
      var m' := ApplyAll(SetValue, m, init).value;
      SetPair(m', last);
      hide Apply;
      NoneOfOneMoreLeads(pairs, path);
      ParsedIsNoObject(ValueOf(last));
      SetAfterSet(m', PathAt(last), ParseValue(ValueOf(last)), path, value);
    }
  }

  /** One more pair can be set in the original document, behind pairs that do not lead to it. */
  predicate NextSettable(m: Members, init: seq<string>, last: string)
    requires WellFormed(init)
  {
    && Cut(last, ':').Some? && TrimSpace(KeyOf(last)) != "" && Settable(m, PathAt(last))
    && NoneLeadsTo(init, PathAt(last))
  }

  lemma OneMoreSettable(m: Members, pairs: seq<string>)
    requires pairs != []
    ensures AllSettable(m, pairs)
            <==> AllSettable(m, pairs[..|pairs| - 1]) && NextSettable(m, pairs[..|pairs| - 1], pairs[|pairs| - 1])
  {
    hide Cut, TrimSpace, Settable, PathAt, KeyOf;
    var init, last := pairs[..|pairs| - 1], pairs[|pairs| - 1];
    assert forall i :: 0 <= i < |init| ==> init[i] == pairs[i];
    assert forall i :: 0 <= i < |pairs| ==> i < |init| || pairs[i] == last;
  }

  lemma OneMoreSet(m: Members, init: seq<string>, last: string)
    requires ApplyAll(SetValue, m, init).Ok? && WellFormed(init)
    ensures Apply(SetValue, ApplyAll(SetValue, m, init).value, last).Ok? <==> NextSettable(m, init, last)
  {
    var m' := ApplyAll(SetValue, m, init).value;
    SetPair(m', last);
    if Cut(last, ':').Some? {
      var value := ParseValue(ValueOf(last));
      SetsBlockExactlyBelow(m, init, PathAt(last), value);
      SetSucceedsExactlyWhen(m, PathAt(last), value);
    }
    hide ApplyAll, Apply, Cut, TrimSpace, PathAt, KeyOf, Get, Set;
  }

  /** A set command applies exactly when all its keys can be set and none leads to a later one. */
  lemma {:induction false} SetsApplyExactlyWhen(m: Members, pairs: seq<string>)
    ensures ApplyAll(SetValue, m, pairs).Ok? <==> AllSettable(m, pairs)
  {
    if pairs != [] {
      var init, last := pairs[..|pairs| - 1], pairs[|pairs| - 1];
      SetsApplyExactlyWhen(m, init);
      OneMoreSettable(m, pairs);
      hide Apply, NextSettable;
      if AllSettable(m, init) {
        OneMoreSet(m, init, last);
      }
    }
  }

  /** The last pair whose key is a path or leads to it. */
  predicate IsLastAbove(pairs: seq<string>, path: Path, i: nat)
    requires WellFormed(pairs) && i < |pairs|
  {
    PathAt(pairs[i]) <= path && forall j :: i < j < |pairs| ==> !(PathAt(pairs[j]) <= path)
  }

  predicate AllUnrelated(pairs: seq<string>, path: Path)
    requires WellFormed(pairs)
  {
    forall i :: 0 <= i < |pairs| ==> !Related(PathAt(pairs[i]), path)
  }

  /**
   Set commands: at a path whose last key above it is the path itself that pair's value is read, below
   a key nothing is, and paths unrelated to all keys are as they were.
   */
  ghost predicate HasSetEffects(m: Members, after: Members, pairs: seq<string>)
    requires WellFormed(pairs)
  {
    && (forall path, i :: 0 <= i < |pairs| && IsLastAbove(pairs, path, i) ==>
          Get(Object(after), path)
            == if PathAt(pairs[i]) == path then Ok(ParseValue(ValueOf(pairs[i]))) else Err(InvalidPath))
    && (forall path :: AllUnrelated(pairs, path) ==> Get(Object(after), path) == Get(Object(m), path))
  }

  /** The last pair decides what is read at or below its key, and nothing elsewhere. */
  lemma ReadsLastAbove(m: Members, m': Members, pairs: seq<string>, path: Path, i: nat)
    requires pairs != [] && AllSettable(m, pairs) && i < |pairs| && IsLastAbove(pairs, path, i)
    requires HasSetEffects(m, m', pairs[..|pairs| - 1]) && Apply(SetValue, m', pairs[|pairs| - 1]).Ok?
    ensures Get(Object(Apply(SetValue, m', pairs[|pairs| - 1]).value), path)
         == if PathAt(pairs[i]) == path then Ok(ParseValue(ValueOf(pairs[i]))) else Err(InvalidPath)
  {
    var init, last := pairs[..|pairs| - 1], pairs[|pairs| - 1];
    var key, value := PathAt(last), ParseValue(ValueOf(last));
    SetPair(m', last);
    var after := Apply(SetValue, m', last).value;
    SetThenGet(m', key, value);
    hide Apply, Settable, Cut, Set, Get, PathAt;
    if i == |init| {
      assert !value.Object?;
      hide ParseValue;
      if key != path {
        NothingBelow(Object(after), key, path);
      }
    } else {
      hide ParseValue;
      assert init[i] == pairs[i] && pairs[|init|] == last;
      assert !(path <= key);
      SetKeepsUnrelated(m', key, value, path);
      assert IsLastAbove(init, path, i);
    }
  }

  lemma SettableIsWellFormed(m: Members, pairs: seq<string>)
    requires AllSettable(m, pairs)
    ensures WellFormed(pairs)
  {
  }

  lemma {:induction false} SetsHaveEffects(m: Members, pairs: seq<string>)
    requires AllSettable(m, pairs)
    ensures WellFormed(pairs) && ApplyAll(SetValue, m, pairs).Ok?
    ensures HasSetEffects(m, ApplyAll(SetValue, m, pairs).value, pairs)
  {
    SetsApplyExactlyWhen(m, pairs);
    SettableIsWellFormed(m, pairs);
    if pairs == [] {
      assert ApplyAll(SetValue, m, pairs) == Ok(m);
    } else {
      var init, last := pairs[..|pairs| - 1], pairs[|pairs| - 1];
      LastApplied(SetValue, m, pairs);
      OneMoreSettable(m, pairs);
      hide Apply, ApplyAll, AllSettable, ParseValue, Cut, Set, Get, PathAt, NextSettable;
      assert forall i :: 0 <= i < |init| ==> init[i] == pairs[i];
      SetsHaveEffects(m, init);
      var m' := ApplyAll(SetValue, m, init).value;
      var after := ApplyAll(SetValue, m, pairs).value;
      SetPair(m', last);
      forall path, i | 0 <= i < |pairs| && IsLastAbove(pairs, path, i)
        ensures Get(Object(after), path)
             == if PathAt(pairs[i]) == path then Ok(ParseValue(ValueOf(pairs[i]))) else Err(InvalidPath)
      {
        ReadsLastAbove(m, m', pairs, path, i);
      }
      forall path | AllUnrelated(pairs, path)
        ensures Get(Object(after), path) == Get(Object(m), path)
      {
        SetKeepsUnrelated(m', PathAt(last), ParseValue(ValueOf(last)), path);
        assert AllUnrelated(init, path);
      }
    }
  }

  /** The values of the pairs whose key is the path, in order. */
  function ValuesAt(pairs: seq<string>, path: Path): seq<Json>
    requires WellFormed(pairs)
  {
    if pairs == [] then []
    else ValuesAt(pairs[..|pairs| - 1], path)
         + (if PathAt(pairs[|pairs| - 1]) == path then [Json.Text(ValueOf(pairs[|pairs| - 1]))] else [])
  }

  function WithoutAll(items: seq<Json>, gone: seq<Json>): seq<Json> {
    if items == [] then []
    else WithoutAll(items[..|items| - 1], gone) + (if items[|items| - 1] in gone then [] else [items[|items| - 1]])
  }

  lemma {:induction false} WithoutOneMore(items: seq<Json>, gone: seq<Json>, item: Json)
    ensures WithoutItem(WithoutAll(items, gone), item) == WithoutAll(items, gone + [item])
  {
    if items != [] {
      var init, last := items[..|items| - 1], items[|items| - 1];
      WithoutOneMore(init, gone, item);
      WithoutItemOfConcat(WithoutAll(init, gone), last, item);
      assert WithoutAll(init, gone) + [] == WithoutAll(init, gone);
    }
  }

  lemma {:induction false} WithoutNone(items: seq<Json>)
    ensures WithoutAll(items, []) == items
  {
    if items != [] {
      WithoutNone(items[..|items| - 1]);
    }
  }

  /** The list after all values were appended, or after all of them were removed. */
  function Edited(kind: Kind, items: seq<Json>, values: seq<Json>): seq<Json> {
    if kind.AppendItem? then items + values else WithoutAll(items, values)
  }

  lemma EditedOneMore(kind: Kind, items: seq<Json>, values: seq<Json>, value: string)
    requires !kind.SetValue?
    ensures EditList(kind, Edited(kind, items, values), value) == Edited(kind, items, values + [Json.Text(value)])
  {
    if kind.RemoveItem? {
      WithoutOneMore(items, values, Json.Text(value));
    }
  }

  /** Each list named by a key is edited with the values of all pairs for it. */
  lemma {:induction false} ListIsEdited(kind: Kind, m: Members, pairs: seq<string>, other: string)
    requires !kind.SetValue? && AllEditLists(m, pairs) && EditsListAt(m, other)
    ensures WellFormed(pairs) && ApplyAll(kind, m, pairs).Ok? && EditsListAt(ApplyAll(kind, m, pairs).value, other)
    ensures ListAt(ApplyAll(kind, m, pairs).value, other)
         == Edited(kind, ListAt(m, other), ValuesAt(pairs, PathAt(other)))
    decreases |pairs|
  {
    var items := ListAt(m, other);
    assert WellFormed(pairs);
    hide Apply, EditsListAt, ListAt, PathAt, EditList, Edited;
    if pairs == [] {
      NothingEdited(kind, items);
    } else {
      var init, last := pairs[..|pairs| - 1], pairs[|pairs| - 1];
      var values := ValuesAt(init, PathAt(other));
      ListIsEdited(kind, m, init, other);
      ListIsEdited(kind, m, init, last);
      var m' := ApplyAll(kind, m, init).value;
      SameListAtSamePath(m', last, other);
      OtherListStays(kind, m', last, other);
      EditedOneMore(kind, items, values, ValueOf(last));
      assert values + [] == values;
    }
  }

  lemma NothingEdited(kind: Kind, items: seq<Json>)
    ensures Edited(kind, items, []) == items
  {
    WithoutNone(items);
  }

  lemma SameListAtSamePath(m: Members, pair: string, other: string)
    requires EditsListAt(m, pair) && EditsListAt(m, other)
    ensures PathAt(pair) == PathAt(other) ==> ListAt(m, pair) == ListAt(m, other)
  {
  }

  lemma OtherListStays(kind: Kind, m: Members, pair: string, other: string)
    requires !kind.SetValue? && EditsListAt(m, pair) && EditsListAt(m, other)
    ensures Apply(kind, m, pair).Ok? && EditsListAt(Apply(kind, m, pair).value, other)
    ensures ListAt(Apply(kind, m, pair).value, other)
         == if PathAt(pair) == PathAt(other) then EditList(kind, ListAt(m, pair), ValueOf(pair)) else ListAt(m, other)
  {
    OtherListsStay(kind, m, pair, other);
  }

  lemma {:induction false} ListEditsKeepUnrelated(kind: Kind, m: Members, pairs: seq<string>, path: Path)
    requires !kind.SetValue? && AllEditLists(m, pairs) && WellFormed(pairs) && AllUnrelated(pairs, path)
    ensures ApplyAll(kind, m, pairs).Ok?
    ensures Get(Object(ApplyAll(kind, m, pairs).value), path) == Get(Object(m), path)
    decreases |pairs|
  {
    ListEditsApply(kind, m, pairs, []);
    if pairs != [] {
      var init, last := pairs[..|pairs| - 1], pairs[|pairs| - 1];
      assert AllUnrelated(init, path) && AllEditLists(m, init);
      ListEditsKeepUnrelated(kind, m, init, path);
      ListIsEdited(kind, m, init, last);
      var m' := ApplyAll(kind, m, init).value;
      ListEdit(kind, m', last);
      assert !Related(PathAt(last), path);
      hide Apply, EditsListAt;
      SetKeepsUnrelated(m', PathAt(last), Array(EditList(kind, ListAt(m', last), ValueOf(last))), path);
    }
  }

  /**
   Append and remove commands: every list named by a key has got, or lost, the values of all pairs
   for it, and paths unrelated to all keys are as they were.
   */
  ghost predicate HasListEffects(kind: Kind, m: Members, after: Members, pairs: seq<string>) {
    && WellFormed(pairs)
    && (forall other :: EditsListAt(m, other) ==>
          && EditsListAt(after, other)
          && ListAt(after, other) == Edited(kind, ListAt(m, other), ValuesAt(pairs, PathAt(other))))
    && (forall path :: AllUnrelated(pairs, path) ==> Get(Object(after), path) == Get(Object(m), path))
  }

  predicate CanApply(kind: Kind, m: Members, pairs: seq<string>) {
    if kind.SetValue? then AllSettable(m, pairs) else AllEditLists(m, pairs)
  }

  ghost predicate HasEffects(kind: Kind, m: Members, after: Members, pairs: seq<string>) {
    if kind.SetValue? then WellFormed(pairs) && HasSetEffects(m, after, pairs) else HasListEffects(kind, m, after, pairs)
  }

  lemma ListsHaveEffects(kind: Kind, m: Members, pairs: seq<string>)
    requires !kind.SetValue? && AllEditLists(m, pairs)
    ensures ApplyAll(kind, m, pairs).Ok? && HasListEffects(kind, m, ApplyAll(kind, m, pairs).value, pairs)
  {
    hide Apply, ApplyAll, ListAt, Edited, AllUnrelated, GetDotted, IsAppendRemovePathAllowed;
    ListEditsApply(kind, m, pairs, []);
    ListPairsAreWellFormed(m, pairs);
    forall other | EditsListAt(m, other)
      ensures EditsListAt(ApplyAll(kind, m, pairs).value, other)
      ensures ListAt(ApplyAll(kind, m, pairs).value, other)
           == Edited(kind, ListAt(m, other), ValuesAt(pairs, PathAt(other)))
    {
      ListIsEdited(kind, m, pairs, other);
    }
    forall path | AllUnrelated(pairs, path)
      ensures Get(Object(ApplyAll(kind, m, pairs).value), path) == Get(Object(m), path)
    {
      ListEditsKeepUnrelated(kind, m, pairs, path);
    }
  }

  /** Whether all pairs apply can be told from the original document, and what they leave from the pairs. */
  lemma AppliesExactlyWhen(kind: Kind, m: Members, pairs: seq<string>)
    ensures ApplyAll(kind, m, pairs).Ok? <==> CanApply(kind, m, pairs)
    ensures ApplyAll(kind, m, pairs).Ok? ==> HasEffects(kind, m, ApplyAll(kind, m, pairs).value, pairs)
  {
    hide Apply, ApplyAll, AllSettable, HasSetEffects, HasListEffects, AllEditLists;
    if kind.SetValue? {
      SetsApplyExactlyWhen(m, pairs);
      if AllSettable(m, pairs) {
        SetsHaveEffects(m, pairs);
      }
    } else if ApplyAll(kind, m, pairs).Ok? {
      AppliedPairsEditLists(kind, m, pairs);
      ListsHaveEffects(kind, m, pairs);
    } else if AllEditLists(m, pairs) {
      ListsHaveEffects(kind, m, pairs);
    }
  }

  lemma ListPairsAreWellFormed(m: Members, pairs: seq<string>)
    requires AllEditLists(m, pairs)
    ensures WellFormed(pairs)
  {
  }

  /** The document in memory once all pairs were applied. */
  function Outcome(kind: Kind, m: Members, pairs: seq<string>): Members {
    match ApplyAll(kind, m, pairs)
    case Ok(after) => after
    case Err(_) => m
  }

  /**
   A command with several pairs writes the effects of all of them or leaves the file alone. It
   succeeds exactly when all pairs can be applied to the stored document, the outcome is valid and
   the write works.
   */
  lemma AllOrNothing(kind: Kind, schema: Schema, m: Members, keyValues: string, writes: bool)
    ensures
      var (file, error) := Edit(kind, schema, Some(Object(m)), keyValues, writes);
      var pairs := PairsOf(keyValues);
      && (error.Some? ==> file == Some(Object(m)))
      && (error.None? ==> file.Some? && file.value.Object? && HasEffects(kind, m, file.value.members, pairs))
      && (error.None? <==> writes && CanApply(kind, m, pairs) && schema(Object(Outcome(kind, m, pairs))))
  {
    AppliesExactlyWhen(kind, m, PairsOf(keyValues));
    hide Apply, ApplyAll, PairsOf, CanApply, HasEffects;
  }

  /** With all pairs applied, the remaining errors are those of an invalid outcome and of a failed write. */
  lemma LateErrors(kind: Kind, schema: Schema, m: Members, keyValues: string, writes: bool)
    ensures
      var (error, valid) := (Edit(kind, schema, Some(Object(m)), keyValues, writes).1,
                             schema(Object(Outcome(kind, m, PairsOf(keyValues)))));
      CanApply(kind, m, PairsOf(keyValues)) ==>
        error == if !valid then Some(SchemaViolation) else if !writes then Some(WriteFailed) else None
  {
    AppliesExactlyWhen(kind, m, PairsOf(keyValues));
    hide Apply, ApplyAll, PairsOf, CanApply, HasEffects;
  }

  /** The document null stays null; a command gets through exactly if it has no pairs and null is valid and written. */
  lemma NullErrors(kind: Kind, schema: Schema, keyValues: string, writes: bool)
    ensures
      var ((file, error), none) := (Edit(kind, schema, Some(Null), keyValues, writes), PairsOf(keyValues) == []);
      && file == Some(Null)
      && (error.None? <==> none && schema(Null) && writes)
      && (error == Some(SchemaViolation) <==> none && !schema(Null))
      && (error == Some(WriteFailed) <==> none && schema(Null) && !writes)
  {
    hide PairsOf, Cut, TrimSpace, IsAppendRemovePathAllowed;
  }

  lemma NoPairs(kind: Kind, m: Members)
    ensures ApplyAll(kind, m, Pairs([])) == Ok(m)
  {
  }

  /** What the next text adds to the outcome of the ones before it. */
  lemma OneMoreText(kind: Kind, m: Members, texts: seq<string>, i: nat)
    requires i < |texts|
    ensures
      var before, after := ApplyAll(kind, m, Pairs(texts[..i])), ApplyAll(kind, m, Pairs(texts[..i + 1]));
      after == if TrimSpace(texts[i]) == "" || before.Err? then before else Apply(kind, before.value, TrimSpace(texts[i]))
  {
    hide Apply, TrimSpace;
    assert texts[..i + 1][..i] == texts[..i];
    var done, keyValue := Pairs(texts[..i]), TrimSpace(texts[i]);
    if keyValue == "" {
      assert Pairs(texts[..i + 1]) == done;
    } else {
      assert (done + [keyValue])[..|done|] == done;
    }
  }

  // ----- The code -----

  class ConfigOperation {
    const schema: Schema
    var file: Option<Json>

    constructor (schema: Schema, file: Option<Json>)
      ensures this.schema == schema && this.file == file
    {
      this.schema, this.file := schema, file;
    }

    /** The loop over a list that keeps everything but the value. */
    method Filter(items: seq<Json>, value: string) returns (kept: seq<Json>)
      ensures kept == WithoutItem(items, Json.Text(value))
    {
      kept := [];
      for i := 0 to |items|
        invariant kept == WithoutItem(items[..i], Json.Text(value))
      {
        if items[i] != Json.Text(value) {
          kept := kept + [items[i]];
        }
        assert items[..i + 1][..i] == items[..i];
      }
      assert items[..|items|] == items;
    }

    method ApplyPair(kind: Kind, document: Document, pair: string) returns (error: Option<Error>)
      modifies document
      ensures match Apply(kind, old(document.root), pair)
              case Ok(m) => error.None? && document.root == m
              case Err(e) => error == Some(e)
    {
      var parts := Cut(pair, ':');
      if parts.None? {
        return Some(BadFormat);
      }
      var key, value := parts.value.0, parts.value.1;
      var replacement;
      if kind.SetValue? {
        replacement := ParseValue(value);
      } else {
        if !IsAppendRemovePathAllowed(key) {
          return Some(PathNotAllowed);
        }
        var target := document.GetJSONPath(key);
        if target.Err? {
          return Some(BadPath(target.error));
        }
        if !target.value.Array? {
          return Some(NotAList);
        }
        if kind.AppendItem? {
          replacement := Array(target.value.items + [Json.Text(value)]);
        } else {
          var kept := Filter(target.value.items, value);
          replacement := Array(kept);
        }
      }
      var ok := document.SetJSONPath(key, replacement);
      return if ok then None else Some(if TrimSpace(key) == "" then EmptyPath else BadPath(InvalidPath));
    }

    /** The loop over the texts between semicolons. */
    method ApplyTexts(kind: Kind, document: Document, texts: seq<string>) returns (error: Option<Error>)
      modifies document
      ensures match ApplyAll(kind, old(document.root), Pairs(texts))
              case Ok(m) => error.None? && document.root == m
              case Err(e) => error == Some(e)
    {
      hide Apply, TrimSpace, ApplyAll, Pairs;
      NoPairs(kind, document.root);
      for i := 0 to |texts|
        invariant ApplyAll(kind, old(document.root), Pairs(texts[..i])) == Ok(document.root)
      {
        OneMoreText(kind, old(document.root), texts, i);
        var keyValue := TrimSpace(texts[i]);
        if keyValue != "" {
          error := ApplyPair(kind, document, keyValue);
          if error.Some? {
            FailureIsFinal(kind, old(document.root), texts, i + 1);
            return;
          }
        }
      }
      assert texts[..|texts|] == texts;
      return None;
    }

    /** The same commands on the document null; the file is at best written as it was. */
    method EditNilMap(kind: Kind, texts: seq<string>, writes: bool) returns (error: Option<Error>)
      ensures error == EditNil(kind, schema, Pairs(texts), writes)
    {
      hide TrimSpace, IsAppendRemovePathAllowed;
      for i := 0 to |texts|
        invariant Pairs(texts[..i]) == []
      {
        assert texts[..i + 1][..i] == texts[..i];
        var keyValue := TrimSpace(texts[i]);
        if keyValue != "" {
          assert Pairs(texts[..i + 1]) == [keyValue];
          FirstPairStays(texts, i + 1);
          return Some(NilError(kind, keyValue));
        }
      }
      assert texts[..|texts|] == texts;
      if !schema(Null) {
        return Some(SchemaViolation);
      }
      return if writes then None else Some(WriteFailed);
    }

    /** SetConfigCommand, AppendConfigCommand and RemoveConfigCommand. */
    method EditConfigCommand(kind: Kind, keyValues: string, writes: bool) returns (error: Option<Error>)
      modifies this
      ensures (file, error) == Edit(kind, schema, old(file), keyValues, writes)
    {
      if file.None? || !(file.value.Object? || file.value.Null?) {
        return Some(Unreadable);
      }
      if file.value.Null? {
        error := EditNilMap(kind, Split(keyValues, ';'), writes);
        return;
      }
      var document := new Document(file.value.members);
      error := ApplyTexts(kind, document, Split(keyValues, ';'));
      if error.Some? {
        return;
      }
      if !schema(Object(document.root)) {
        return Some(SchemaViolation);
      }
      if !writes {
        return Some(WriteFailed);
      }
      file := Some(Object(document.root));
    }

    /** LoadConfigCommand, once signature and archive handling have produced the input. */
    method LoadConfigCommand(input: Option<Json>, verified: bool, writes: bool) returns (ok: bool)
      modifies this
      ensures file == After(schema, old(file), Load(input, verified, writes))
      ensures file == if ok then input else old(file)
      ensures ok <==> verified && input.Some? && schema(input.value) && writes
    {
      if !verified || input.None? {
        return false;
      }
      if !schema(input.value) {
        return false;
      }
      if !writes {
        return false;
      }
      file := input;
      return true;
    }

    /**
     GetConfigCommand: one answer for every key, blank keys answered by None without an error;
     the command fails only when no key could be answered.
     */
    method GetConfigCommand(key: string) returns (answers: seq<Option<Json>>, failed: bool)
      ensures TrimSpace(key) == "" || Decoded(file).None? ==> failed && answers == []
      ensures TrimSpace(key) != "" && Decoded(file).Some? ==>
                var keys := Split(TrimSpace(key), ';');
                && |answers| == |keys|
                && (forall i :: 0 <= i < |keys| ==>
                      answers[i] == Answer(Decoded(file).value, TrimSpace(keys[i])))
                && (failed <==> forall i :: 0 <= i < |keys| ==> TrimSpace(keys[i]) != "" && answers[i].None?)
    {
      answers, failed := [], true;
      if TrimSpace(key) == "" || Decoded(file).None? {
        return;
      }
      var members := Decoded(file).value;
      var document := new Document(members);
      hide TrimSpace, Split, GetDotted, Decoded;
      var keys := Split(TrimSpace(key), ';');
      var errors := 0;
      for i := 0 to |keys|
        invariant document.root == members && |answers| == i && 0 <= errors <= i
        invariant forall k :: 0 <= k < i ==> answers[k] == Answer(members, TrimSpace(keys[k]))
        invariant errors == i <==> forall k :: 0 <= k < i ==> TrimSpace(keys[k]) != "" && answers[k].None?
      {
        var answer, missing := AnswerKey(document, TrimSpace(keys[i]));
        answers := answers + [answer];
        errors := errors + if missing then 1 else 0;
      }
      failed := errors == |keys|;
    }

    /** One turn of the loop: a blank key has no answer, which is no error. */
    static method AnswerKey(document: Document, k: string) returns (answer: Option<Json>, missing: bool)
      ensures answer == Answer(document.root, k) && (missing <==> k != "" && answer.None?)
    {
      if k == "" {
        return None, false;
      }
      var value := document.GetJSONPath(k);
      missing := value.Err?;
      answer := if missing then None else Some(value.value);
    }
  }

  /** For reading, the nil map that null decodes to is an empty one. */
  function Decoded(file: Option<Json>): Option<Members> {
    match file
    case Some(Object(m)) => Some(m)
    case Some(Null) => Some(map[])
    case _ => None
  }

  lemma {:induction false} FirstPairStays(texts: seq<string>, n: nat)
    requires n <= |texts| && Pairs(texts[..n]) != []
    ensures Pairs(texts) != [] && Pairs(texts)[0] == Pairs(texts[..n])[0]
    decreases |texts|
  {
    hide TrimSpace;
    if n == |texts| {
      assert texts[..n] == texts;
    } else {
      assert texts[..|texts| - 1][..n] == texts[..n];
      FirstPairStays(texts[..|texts| - 1], n);
    }
  }

  function Answer(m: Members, key: string): Option<Json> {
    if key == "" then None
    else match GetDotted(m, key)
      case Ok(value) => Some(value)
      case Err(_) => None
  }

  /** What a set has stored is what a get answers; at unrelated keys it answers as before, and to a blank nothing. */
  lemma GetAnswersWhatSetStored(m: Members, key: string, value: Json, other: string)
    requires SetDotted(m, key, value).1
    ensures Answer(SetDotted(m, key, value).0, key) == Some(value)
    ensures !Related(PathOf(key), PathOf(other)) ==> Answer(SetDotted(m, key, value).0, other) == Answer(m, other)
    ensures Answer(m, "") == None
  {
    SetThenGet(m, PathOf(key), value);
    if !Related(PathOf(key), PathOf(other)) {
      SetKeepsUnrelated(m, PathOf(key), value, PathOf(other));
    }
    assert TrimSpace("") == "";
    hide TrimSpace, Split, Set, Get;
  }

  /** Once a pair has failed, the command fails with the same error. */
  lemma {:induction false} FailureIsFinal(kind: Kind, m: Members, texts: seq<string>, n: nat)
    requires n <= |texts| && ApplyAll(kind, m, Pairs(texts[..n])).Err?
    ensures ApplyAll(kind, m, Pairs(texts)) == ApplyAll(kind, m, Pairs(texts[..n]))
    decreases |texts|
  {
    hide Apply, TrimSpace;
    if n == |texts| {
      assert texts[..n] == texts;
    } else {
      var init := texts[..|texts| - 1];
      assert init[..n] == texts[..n];
      FailureIsFinal(kind, m, init, n);
      var keyValue := TrimSpace(texts[|texts| - 1]);
      if keyValue == "" {
        assert Pairs(texts) == Pairs(init);
      } else {
        assert (Pairs(init) + [keyValue])[..|Pairs(init)|] == Pairs(init);
      }
    }
  }
}
