/**
 getJSONPath and setJSONPath: reading and writing a nested document at a dotted path, and
 the laws that connect the two on arbitrary documents.
 */
module JsonPaths {
  import opened Wrappers
  import opened Text
  import opened Json

  type Path = seq<string>

  datatype PathError = InvalidPath | PathNotFound

  function Get(j: Json, path: Path): Result<Json, PathError> {
    if path == [] then Ok(j)
    else if !j.Object? then Err(InvalidPath)
    else if path[0] !in j.members then Err(PathNotFound)
    else Get(j.members[path[0]], path[1..])
  }

  /** The object with an empty one under the key, should the key be missing. */
  function WithObject(m: Members, key: string): Members {
    if key in m then m else m[key := Object(map[])]
  }

  /** The document after the attempt, and whether it succeeded; missing objects are created on the way. */
  function Set(m: Members, path: Path, value: Json): (Members, bool)
    requires path != []
    decreases path
  {
    var p := path[0];
    if |path| == 1 then (m[p := value], true)
    else
      var created := WithObject(m, p);
      if !created[p].Object? then (created, false)
      else
        var (child, ok) := Set(created[p].members, path[1..], value);
        (created[p := Object(child)], ok)
  }

  /** The paths as the commands spell them. */
  function PathOf(text: string): (path: Path)
    ensures path != []
  {
    Split(text, '.')
  }

  /** A dotted text names the path of its parts. */
  lemma DottedTextsAreTheirParts(parts: Path)
    requires parts != [] && forall i :: 0 <= i < |parts| ==> '.' !in parts[i]
    ensures PathOf(Join(parts, '.')) == parts
  {
    SplitOfJoin(parts, '.');
  }

  function GetDotted(m: Members, text: string): Result<Json, PathError> {
    Get(Object(m), PathOf(text))
  }

  function SetDotted(m: Members, text: string, value: Json): (Members, bool) {
    if TrimSpace(text) == "" then (m, false) else Set(m, PathOf(text), value)
  }

  // ----- Laws -----

  /** One path is the other or leads to it. */
  predicate Related(p: Path, q: Path) {
    p <= q || q <= p
  }

  lemma RelatedTails(p: Path, q: Path)
    requires p != [] && q != [] && p[0] == q[0]
    ensures Related(p, q) <==> Related(p[1..], q[1..])
  {
  }

  lemma {:induction false} SetThenGet(m: Members, path: Path, value: Json)
    requires path != [] && Set(m, path, value).1
    ensures Get(Object(Set(m, path, value).0), path) == Ok(value)
    decreases path
  {
    if |path| > 1 {
      var p := path[0];
      var created := WithObject(m, p);
      SetThenGet(created[p].members, path[1..], value);
    }
  }

  /** A set, successful or not, changes nothing at unrelated paths, not even the error. */
  lemma {:induction false} SetKeepsUnrelated(m: Members, path: Path, value: Json, other: Path)
    requires path != [] && !Related(path, other)
    ensures Get(Object(Set(m, path, value).0), other) == Get(Object(m), other)
    decreases path
  {
    var p := path[0];
    if other[0] == p && |path| > 1 {
      RelatedTails(path, other);
      var created := WithObject(m, p);
      if created[p].Object? {
        SetKeepsUnrelated(created[p].members, path[1..], value, other[1..]);
      }
    }
  }

  /** Intermediate objects are only created where nothing can fail any more. */
  lemma {:induction false} FailedSetChangesNothing(m: Members, path: Path, value: Json)
    requires path != [] && !Set(m, path, value).1
    ensures Set(m, path, value).0 == m
    decreases path
  {
    var p := path[0];
    if p !in m {
      SetUnderNothing(path[1..], value);
    } else if m[p].Object? {
      FailedSetChangesNothing(m[p].members, path[1..], value);
    }
  }

  lemma {:induction false} SetUnderNothing(path: Path, value: Json)
    requires path != []
    ensures Set(map[], path, value).1
    decreases path
  {
    if |path| > 1 {
      SetUnderNothing(path[1..], value);
    }
  }

  /** A set succeeds exactly when no proper prefix of the path holds something that is not an object. */
  lemma {:induction false} SetSucceedsExactlyWhen(m: Members, path: Path, value: Json)
    requires path != []
    ensures Set(m, path, value).1 <==>
              forall n :: 0 < n < |path| ==>
                Get(Object(m), path[..n]) == Err(PathNotFound)
                || (Get(Object(m), path[..n]).Ok? && Get(Object(m), path[..n]).value.Object?)
    decreases path
  {
    var p := path[0];
    if |path| > 1 {
      forall n | 0 < n < |path|
        ensures path[..n][0] == p && path[..n][1..] == path[1..][..n - 1]
      {
      }
      if p !in m {
        SetUnderNothing(path[1..], value);
      } else {
        assert Get(Object(m), path[..1]) == Get(m[p], []);
        if m[p].Object? {
          SetSucceedsExactlyWhen(m[p].members, path[1..], value);
          forall n | 0 < n < |path[1..]|
            ensures Get(m[p], path[1..][..n]) == Get(Object(m), path[..n + 1])
          {
          }
          forall n | 1 < n < |path|
            ensures Get(Object(m), path[..n]) == Get(m[p], path[1..][..n - 1])
          {
          }
        }
      }
    }
  }

  /**
   After a successful set of something other than an object, a set at another path succeeds
   exactly when it did before and the first path does not lead to it.
   */
  lemma {:induction false} SetAfterSet(m: Members, p: Path, value: Json, q: Path, other: Json)
    requires p != [] && q != [] && Set(m, p, value).1 && !value.Object?
    ensures Set(Set(m, p, value).0, q, other).1 <==> Set(m, q, other).1 && !(p < q)
    decreases p
  {
    if p[0] != q[0] {
      OtherKeySets(m, p, value, q, other);
    } else if |p| > 1 && |q| > 1 {
      var child := WithObject(m, p[0])[p[0]].members;
      SetTwiceBelow(m, p, value, q, other);
      SetBelow(m, p, value);
      SetBelow(m, q, other);
      PrefixOfTails(p, q);
      hide Set;
      SetAfterSet(child, p[1..], value, q[1..], other);
    }
  }

  lemma OtherKeySets(m: Members, p: Path, value: Json, q: Path, other: Json)
    requires p != [] && q != [] && p[0] != q[0]
    ensures Set(Set(m, p, value).0, q, other).1 == Set(m, q, other).1
  {
    SetTouchesFirstKeyOnly(m, p, value, q[0]);
    SetDependsOnFirstKey(Set(m, p, value).0, m, q, other);
  }

  lemma SetBelow(m: Members, path: Path, value: Json)
    requires |path| > 1 && WithObject(m, path[0])[path[0]].Object?
    ensures Set(m, path, value).1 == Set(WithObject(m, path[0])[path[0]].members, path[1..], value).1
  {
  }

  lemma PrefixOfTails(p: Path, q: Path)
    requires p != [] && q != [] && p[0] == q[0]
    ensures p < q <==> p[1..] < q[1..]
  {
    assert p == [p[0]] + p[1..] && q == [q[0]] + q[1..];
  }

  /** Nothing can be read below a value that is not an object. */
  lemma {:induction false} NothingBelow(j: Json, path: Path, below: Path)
    requires Get(j, path).Ok? && !Get(j, path).value.Object? && path < below
    ensures Get(j, below) == Err(InvalidPath)
    decreases path
  {
    if path != [] {
      assert path == [path[0]] + path[1..] && below == [below[0]] + below[1..];
      NothingBelow(j.members[path[0]], path[1..], below[1..]);
    }
  }

  lemma {:induction false} LaterSetWins(m: Members, path: Path, first: Json, second: Json)
    requires path != [] && Set(m, path, first).1
    ensures Set(Set(m, path, first).0, path, second) == Set(m, path, second)
    ensures Set(m, path, second).1
    decreases path
  {
    var p := path[0];
    if |path| > 1 {
      var created := WithObject(m, p);
      LaterSetWins(created[p].members, path[1..], first, second);
      var child := Set(created[p].members, path[1..], first).0;
      assert created[p := Object(child)][p := Object(Set(child, path[1..], second).0)]
          == created[p := Object(Set(child, path[1..], second).0)];
    } else {
      assert m[p := first][p := second] == m[p := second];
    }
  }

  /** Writing back what is there changes nothing. */
  lemma {:induction false} SetWhatIsThere(m: Members, path: Path, value: Json)
    requires path != [] && Get(Object(m), path) == Ok(value)
    ensures Set(m, path, value) == (m, true)
    decreases path
  {
    var p := path[0];
    if |path| > 1 {
      SetWhatIsThere(m[p].members, path[1..], value);
      assert m[p := Object(m[p].members)] == m;
    } else {
      assert path[1..] == [];
      assert m[p := value] == m;
    }
  }

  /** Sets at unrelated paths do not disturb each other's success and commute. */
  lemma {:induction false} SetsCommute(m: Members, p: Path, v: Json, q: Path, w: Json)
    requires p != [] && q != [] && !Related(p, q)
    requires Set(m, p, v).1 && Set(m, q, w).1
    ensures Set(Set(m, p, v).0, q, w) == Set(Set(m, q, w).0, p, v)
    ensures Set(Set(m, p, v).0, q, w).1
    decreases p
  {
    if p[0] == q[0] {
      RelatedTails(p, q);
      var a := p[0];
      var created := WithObject(m, a);
      var child := created[a].members;
      SetsCommute(child, p[1..], v, q[1..], w);
      SetTwiceBelow(m, p, v, q, w);
      SetTwiceBelow(m, q, w, p, v);
    } else {
      SetsCommuteAtTop(m, p, v, q, w);
    }
  }

  lemma SetTwiceBelow(m: Members, p: Path, v: Json, q: Path, w: Json)
    requires |p| > 1 && |q| > 1 && p[0] == q[0] && Set(m, p, v).1
    ensures var child := WithObject(m, p[0])[p[0]].members;
            Set(Set(m, p, v).0, q, w)
              == (WithObject(m, p[0])[p[0] := Object(Set(Set(child, p[1..], v).0, q[1..], w).0)],
                  Set(Set(child, p[1..], v).0, q[1..], w).1)
  {
    var a, created := p[0], WithObject(m, p[0]);
    var child := Set(created[a].members, p[1..], v).0;
    assert created[a := Object(child)][a := Object(Set(child, q[1..], w).0)]
        == created[a := Object(Set(child, q[1..], w).0)];
  }

  lemma SetsCommuteAtTop(m: Members, p: Path, v: Json, q: Path, w: Json)
    requires p != [] && q != [] && p[0] != q[0]
    requires Set(m, p, v).1 && Set(m, q, w).1
    ensures Set(Set(m, p, v).0, q, w) == Set(Set(m, q, w).0, p, v)
    ensures Set(Set(m, p, v).0, q, w).1
  {
    var afterP, afterQ := Set(m, p, v).0, Set(m, q, w).0;
    SetTouchesFirstKeyOnly(m, p, v, q[0]);
    SetTouchesFirstKeyOnly(m, q, w, p[0]);
    SetDependsOnFirstKey(afterP, m, q, w);
    SetDependsOnFirstKey(afterQ, m, p, v);
    var left, right := Set(afterP, q, w).0, Set(afterQ, p, v).0;
    forall k
      ensures k in left <==> k in right
      ensures k in left ==> left[k] == right[k]
    {
      SetTouchesFirstKeyOnly(afterP, q, w, k);
      SetTouchesFirstKeyOnly(afterQ, p, v, k);
      SetTouchesFirstKeyOnly(m, p, v, k);
      SetTouchesFirstKeyOnly(m, q, w, k);
    }
    assert left == right;
  }

  lemma SetTouchesFirstKeyOnly(m: Members, path: Path, value: Json, k: string)
    requires path != []
    ensures path[0] in Set(m, path, value).0
    ensures k != path[0] ==> (k in Set(m, path, value).0 <==> k in m)
    ensures k != path[0] && k in m ==> Set(m, path, value).0[k] == m[k]
  {
  }

  /** What a set writes under its first key depends on nothing but that key. */
  lemma SetDependsOnFirstKey(a: Members, b: Members, path: Path, value: Json)
    requires path != []
    requires path[0] in a <==> path[0] in b
    requires path[0] in a ==> a[path[0]] == b[path[0]]
    ensures Set(a, path, value).1 == Set(b, path, value).1
    ensures Set(a, path, value).0[path[0]] == Set(b, path, value).0[path[0]]
  {
  }

  /** The laws for the dotted paths of the commands, on every document. */
  lemma DottedPathLaws(m: Members, text: string, value: Json, other: string, later: Json)
    ensures SetDotted(m, text, value).1 ==> GetDotted(SetDotted(m, text, value).0, text) == Ok(value)
    ensures !Related(PathOf(text), PathOf(other)) ==>
              GetDotted(SetDotted(m, text, value).0, other) == GetDotted(m, other)
    ensures SetDotted(m, text, value).1 ==>
              SetDotted(SetDotted(m, text, value).0, text, later) == SetDotted(m, text, later)
    ensures !SetDotted(m, text, value).1 ==> SetDotted(m, text, value).0 == m
  {
    var path := PathOf(text);
    if TrimSpace(text) != "" {
      if Set(m, path, value).1 {
        SetThenGet(m, path, value);
        LaterSetWins(m, path, value, later);
      } else {
        FailedSetChangesNothing(m, path, value);
      }
      if !Related(path, PathOf(other)) {
        SetKeepsUnrelated(m, path, value, PathOf(other));
      }
    }
  }

  // ----- In-place update through a cursor -----

  /** The object a path of objects leads to. */
  function At(m: Members, path: Path): Option<Members>
    decreases path
  {
    if path == [] then Some(m)
    else if path[0] in m && m[path[0]].Object? then At(m[path[0]].members, path[1..])
    else None
  }

  /** The document with the object at the path replaced, as assigning through a reference does. */
  function PutAt(m: Members, path: Path, node: Members): Members
    requires At(m, path).Some?
    decreases path
  {
    if path == [] then node
    else m[path[0] := Object(PutAt(m[path[0]].members, path[1..], node))]
  }

  lemma {:induction false} PutAtLaws(m: Members, path: Path, node: Members)
    requires At(m, path).Some?
    ensures PutAt(m, path, At(m, path).value) == m
    ensures At(PutAt(m, path, node), path) == Some(node)
    decreases path
  {
    if path != [] {
      PutAtLaws(m[path[0]].members, path[1..], node);
      assert m[path[0] := Object(m[path[0]].members)] == m;
    }
  }

  lemma {:induction false} PutAtTwice(m: Members, path: Path, first: Members, second: Members)
    requires At(m, path).Some? && At(PutAt(m, path, first), path).Some?
    ensures PutAt(PutAt(m, path, first), path, second) == PutAt(m, path, second)
    decreases path
  {
    if path != [] {
      PutAtTwice(m[path[0]].members, path[1..], first, second);
    }
  }

  lemma {:induction false} AtStep(m: Members, path: Path, p: string)
    requires At(m, path).Some? && p in At(m, path).value && At(m, path).value[p].Object?
    ensures At(m, path + [p]) == Some(At(m, path).value[p].members)
    decreases path
  {
    if path != [] {
      AtStep(m[path[0]].members, path[1..], p);
      assert (path + [p])[1..] == path[1..] + [p];
    }
  }

  /** Setting below a cursor is setting in the cursor's object and putting that back. */
  lemma {:induction false} SetBelowCursor(m: Members, path: Path, rest: Path, value: Json)
    requires At(m, path).Some? && rest != []
    ensures Set(m, path + rest, value)
         == (PutAt(m, path, Set(At(m, path).value, rest, value).0), Set(At(m, path).value, rest, value).1)
    decreases path
  {
    if path == [] {
      assert path + rest == rest;
    } else {
      SetBelowCursor(m[path[0]].members, path[1..], rest, value);
      assert (path + rest)[1..] == path[1..] + rest;
    }
  }

  /** The three ways a set proceeds at the cursor. */
  lemma SetAtCursor(node: Members, rest: Path, value: Json)
    requires rest != []
    ensures |rest| == 1 ==> Set(node, rest, value) == (node[rest[0] := value], true)
    ensures |rest| > 1 && rest[0] !in node ==>
              Set(node, rest, value) == Set(node[rest[0] := Object(map[])], rest, value)
    ensures |rest| > 1 && rest[0] in node && !node[rest[0]].Object? ==> Set(node, rest, value) == (node, false)
  {
  }

  /** Creating the next object under the cursor does not change what the set arrives at. */
  lemma CreationIsInvisible(m: Members, walked: Path, cur: Members, rest: Path, value: Json)
    requires At(m, walked) == Some(cur) && |rest| > 1 && rest[0] !in cur
    ensures At(PutAt(m, walked, cur[rest[0] := Object(map[])]), walked) == Some(cur[rest[0] := Object(map[])])
    ensures Set(PutAt(m, walked, cur[rest[0] := Object(map[])]), walked + rest, value) == Set(m, walked + rest, value)
  {
    var created := cur[rest[0] := Object(map[])];
    PutAtLaws(m, walked, created);
    SetBelowCursor(m, walked, rest, value);
    SetBelowCursor(PutAt(m, walked, created), walked, rest, value);
    SetAtCursor(cur, rest, value);
    PutAtTwice(m, walked, created, Set(created, rest, value).0);
  }

  lemma AtRoot(m: Members)
    ensures At(m, []) == Some(m)
  {
  }

  class Document {
    var root: Members

    constructor (root: Members)
      ensures this.root == root
    {
      this.root := root;
    }

    method GetJSONPath(text: string) returns (result: Result<Json, PathError>)
      ensures result == GetDotted(root, text)
    {
      var parts := Split(text, '.');
      var cur := Object(root);
      for i := 0 to |parts|
        invariant Get(Object(root), parts) == Get(cur, parts[i..])
      {
        if !cur.Object? {
          return Err(InvalidPath);
        }
        if parts[i] !in cur.members {
          return Err(PathNotFound);
        }
        assert parts[i..][1..] == parts[i + 1..];
        cur := cur.members[parts[i]];
      }
      return Ok(cur);
    }

    /** cur[key] = value: the cursor is the object the walked keys lead to, so the document changes with it. */
    method AssignAtCursor(walked: Path, cur: Members, key: string, value: Json) returns (updated: Members)
      requires At(root, walked) == Some(cur)
      modifies this
      ensures updated == cur[key := value] && root == PutAt(old(root), walked, updated)
      ensures At(root, walked) == Some(updated)
    {
      PutAtLaws(root, walked, cur[key := value]);
      updated := cur[key := value];
      root := PutAt(root, walked, updated);
    }

    /** setJSONPath with its cursor; on failure the created objects would remain, had there been any. */
    method SetJSONPath(text: string, value: Json) returns (ok: bool)
      modifies this
      ensures (root, ok) == SetDotted(old(root), text, value)
    {
      if TrimSpace(text) == "" {
        return false;
      }
      var parts := Split(text, '.');
      var cur := root;
      var i := 0;
      AtRoot(root);
      hide Set, At, PutAt, Split;
      while true
        invariant 0 <= i < |parts|
        invariant At(root, parts[..i]) == Some(cur)
        invariant Set(root, parts, value) == Set(old(root), parts, value)
        decreases |parts| - i
      {
        var p := parts[i];
        assert parts[..i] + parts[i..] == parts;
        SetBelowCursor(root, parts[..i], parts[i..], value);
        SetAtCursor(cur, parts[i..], value);
        if i == |parts| - 1 {
          cur := AssignAtCursor(parts[..i], cur, p, value);
          return true;
        }
        if p !in cur {
          CreationIsInvisible(root, parts[..i], cur, parts[i..], value);
          cur := AssignAtCursor(parts[..i], cur, p, Object(map[]));
          SetBelowCursor(root, parts[..i], parts[i..], value);
          SetAtCursor(cur, parts[i..], value);
        }
        PutAtLaws(root, parts[..i], cur);
        if !cur[p].Object? {
          return false;
        }
        AtStep(root, parts[..i], p);
        assert parts[..i + 1] == parts[..i] + [p];
        cur, i := cur[p].members, i + 1;
      }
    }
  }
}
