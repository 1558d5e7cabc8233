/**
 The pieces of Go's strings, strconv and bufio packages that the agents rely on,
 with the laws the other modules need: trimming, splitting, cutting and scanning lines.
 */
module Text {
  import opened Wrappers

  /** unicode.IsSpace. */
  predicate IsSpace(c: char) {
    || '\t' <= c <= '\r'
    || c == ' '
    || c as int in {0x85, 0xA0, 0x1680, 0x2028, 0x2029, 0x202F, 0x205F, 0x3000}
    || 0x2000 <= c as int <= 0x200A
  }

  // ----- Trimming -----

  function TrimStart(s: string, cut: char -> bool): string {
    if s != "" && cut(s[0]) then TrimStart(s[1..], cut) else s
  }

  function TrimEnd(s: string, cut: char -> bool): string {
    if s != "" && cut(s[|s| - 1]) then TrimEnd(s[..|s| - 1], cut) else s
  }

  function Trim(s: string, cut: char -> bool): string {
    TrimEnd(TrimStart(s, cut), cut)
  }

  function TrimSpace(s: string): string {
    Trim(s, IsSpace)
  }

  /** Neither end of the string is a character that trimming would remove. */
  predicate Bare(s: string, cut: char -> bool) {
    s == "" || (!cut(s[0]) && !cut(s[|s| - 1]))
  }

  lemma {:induction false} TrimStartLength(s: string, cut: char -> bool)
    ensures |TrimStart(s, cut)| <= |s|
    ensures |TrimStart(s, cut)| == |s| ==> TrimStart(s, cut) == s && (s == "" || !cut(s[0]))
    ensures TrimStart(s, cut) == "" || !cut(TrimStart(s, cut)[0])
  {
    if s != "" && cut(s[0]) {
      TrimStartLength(s[1..], cut);
    }
  }

  lemma {:induction false} TrimEndLength(s: string, cut: char -> bool)
    ensures |TrimEnd(s, cut)| <= |s|
    ensures |TrimEnd(s, cut)| == |s| ==> TrimEnd(s, cut) == s && (s == "" || !cut(s[|s| - 1]))
    ensures TrimEnd(s, cut) == s[..|TrimEnd(s, cut)|]
    ensures TrimEnd(s, cut) == "" || !cut(TrimEnd(s, cut)[|TrimEnd(s, cut)| - 1])
  {
    if s != "" && cut(s[|s| - 1]) {
      TrimEndLength(s[..|s| - 1], cut);
    }
  }

  /** What trimming returns has bare ends, and the bare strings are exactly the ones it leaves alone. */
  lemma TrimFixesExactlyBare(s: string, cut: char -> bool)
    ensures Bare(Trim(s, cut), cut)
    ensures Trim(s, cut) == s <==> Bare(s, cut)
  {
    TrimStartLength(s, cut);
    TrimEndLength(TrimStart(s, cut), cut);
  }

  /** Trimming the end of a concatenation only looks at the second part when the first ends bare. */
  lemma {:induction false} TrimEndConcat(a: string, b: string, cut: char -> bool)
    requires a != "" && !cut(a[|a| - 1])
    ensures TrimEnd(a + b, cut) == a + TrimEnd(b, cut)
  {
    if b == "" {
      assert a + b == a;
    } else {
      assert (a + b)[|a + b| - 1] == b[|b| - 1];
      if cut(b[|b| - 1]) {
        assert (a + b)[..|a + b| - 1] == a + b[..|b| - 1];
        TrimEndConcat(a, b[..|b| - 1], cut);
      }
    }
  }

  /** A string is what trimming leaves of it between characters that are cut. */
  lemma {:induction false} TrimStartCuts(s: string, cut: char -> bool) returns (lead: string)
    ensures s == lead + TrimStart(s, cut) && forall c :: c in lead ==> cut(c)
  {
    lead := "";
    if s != "" && cut(s[0]) {
      var rest := TrimStartCuts(s[1..], cut);
      lead := [s[0]] + rest;
      assert s == [s[0]] + s[1..];
    }
  }

  lemma {:induction false} TrimEndCuts(s: string, cut: char -> bool) returns (trail: string)
    ensures s == TrimEnd(s, cut) + trail && forall c :: c in trail ==> cut(c)
  {
    trail := "";
    if s != "" && cut(s[|s| - 1]) {
      var rest := TrimEndCuts(s[..|s| - 1], cut);
      trail := rest + [s[|s| - 1]];
      assert s == s[..|s| - 1] + [s[|s| - 1]];
    }
  }

  lemma TrimCuts(s: string, cut: char -> bool) returns (lead: string, trail: string)
    ensures s == lead + Trim(s, cut) + trail
    ensures (forall c :: c in lead ==> cut(c)) && (forall c :: c in trail ==> cut(c))
  {
    lead := TrimStartCuts(s, cut);
    trail := TrimEndCuts(TrimStart(s, cut), cut);
  }

  /** Cutting the end first does not change what a full trim returns. */
  lemma {:induction false} TrimOfTrimEnd(s: string, cut: char -> bool)
    ensures Trim(TrimEnd(s, cut), cut) == Trim(s, cut)
  {
    if s != "" && cut(s[0]) {
      TrimOfTrimEnd(s[1..], cut);
      if TrimEnd(s[1..], cut) == "" {
        TrimAllCut(s, cut);
      } else {
        TrimEndCons(s, cut);
      }
    } else {
      TrimEndLength(s, cut);
      TrimFixesExactlyBare(TrimEnd(s, cut), cut);
    }
  }

  lemma {:induction false} TrimEndCons(s: string, cut: char -> bool)
    requires s != "" && TrimEnd(s[1..], cut) != ""
    ensures TrimEnd(s, cut) == [s[0]] + TrimEnd(s[1..], cut)
  {
    if cut(s[|s| - 1]) {
      assert s[..|s| - 1][1..] == s[1..][..|s[1..]| - 1];
      assert s[1..][|s[1..]| - 1] == s[|s| - 1];
      TrimEndCons(s[..|s| - 1], cut);
    } else {
      assert s[1..][|s[1..]| - 1] == s[|s| - 1];
    }
  }

  lemma {:induction false} TrimAllCut(s: string, cut: char -> bool)
    requires s != "" && cut(s[0]) && TrimEnd(s[1..], cut) == ""
    ensures TrimEnd(s, cut) == ""
    decreases |s|
  {
    if |s| > 1 {
      assert s[1..][|s[1..]| - 1] == s[|s| - 1];
      assert s[..|s| - 1][1..] == s[1..][..|s[1..]| - 1];
      TrimAllCut(s[..|s| - 1], cut);
    }
  }

  // ----- Splitting and joining -----

  /** strings.Split with a one-character separator. */
  function Split(s: string, sep: char): (parts: seq<string>)
    ensures |parts| >= 1
  {
    if s == "" then [""]
    else
      var rest := Split(s[1..], sep);
      if s[0] == sep then [""] + rest else [[s[0]] + rest[0]] + rest[1..]
  }

  /** strings.Join with a one-character separator. */
  function Join(parts: seq<string>, sep: char): string {
    if parts == [] then ""
    else if |parts| == 1 then parts[0]
    else parts[0] + [sep] + Join(parts[1..], sep)
  }

  lemma {:induction false} JoinOfSplit(s: string, sep: char)
    ensures Join(Split(s, sep), sep) == s
  {
    if s != "" {
      JoinOfSplit(s[1..], sep);
      var rest := Split(s[1..], sep);
      if s[0] == sep {
        assert ([""] + rest)[1..] == rest;
      } else if |rest| > 1 {
        assert ([[s[0]] + rest[0]] + rest[1..])[1..] == rest[1..];
      }
    }
  }

  lemma {:induction false} SplitPartsAreFree(s: string, sep: char)
    ensures forall i :: 0 <= i < |Split(s, sep)| ==> sep !in Split(s, sep)[i]
  {
    if s != "" {
      SplitPartsAreFree(s[1..], sep);
    }
  }

  lemma {:induction false} SplitOfFree(s: string, sep: char)
    requires sep !in s
    ensures Split(s, sep) == [s]
  {
    if s != "" {
      SplitOfFree(s[1..], sep);
      assert [s[0]] + s[1..] == s;
    }
  }

  /** A separator-free prefix followed by the separator is the first part. */
  lemma {:induction false} SplitFirst(a: string, b: string, sep: char)
    requires sep !in a
    ensures Split(a + [sep] + b, sep) == [a] + Split(b, sep)
  {
    var s := a + [sep] + b;
    if a == "" {
      assert s[1..] == b;
    } else {
      assert s[1..] == a[1..] + [sep] + b;
      SplitFirst(a[1..], b, sep);
      assert [s[0]] + a[1..] == a;
    }
  }

  lemma {:induction false} SplitOfJoin(parts: seq<string>, sep: char)
    requires |parts| >= 1
    requires forall i :: 0 <= i < |parts| ==> sep !in parts[i]
    ensures Split(Join(parts, sep), sep) == parts
  {
    if |parts| == 1 {
      SplitOfFree(parts[0], sep);
    } else {
      SplitOfJoin(parts[1..], sep);
      SplitFirst(parts[0], Join(parts[1..], sep), sep);
    }
  }

  /** strings.SplitN(s, sep, 2): None when the separator does not occur. */
  function Cut(s: string, sep: char): Option<(string, string)> {
    if s == "" then None
    else if s[0] == sep then Some(("", s[1..]))
    else match Cut(s[1..], sep)
      case None => None
      case Some((a, b)) => Some(([s[0]] + a, b))
  }

  lemma {:induction false} CutAtFirst(a: string, b: string, sep: char)
    requires sep !in a
    ensures Cut(a + [sep] + b, sep) == Some((a, b))
  {
    var s := a + [sep] + b;
    if a == "" {
      assert s[1..] == b;
    } else {
      assert s[1..] == a[1..] + [sep] + b;
      CutAtFirst(a[1..], b, sep);
      assert [a[0]] + a[1..] == a;
    }
  }

  /** A text with the separator is the part before its first occurrence, the separator and the rest. */
  lemma {:induction false} CutIsConcat(s: string, sep: char)
    ensures Cut(s, sep).Some? <==> sep in s
    ensures Cut(s, sep).Some? ==>
              s == Cut(s, sep).value.0 + [sep] + Cut(s, sep).value.1 && sep !in Cut(s, sep).value.0
  {
    if s != "" {
      assert s == [s[0]] + s[1..];
      if s[0] != sep {
        CutIsConcat(s[1..], sep);
      }
    }
  }

  // ----- Prefixes -----

  predicate HasPrefix(s: string, prefix: string) {
    prefix <= s
  }

  function TrimPrefix(s: string, prefix: string): string {
    if prefix <= s then s[|prefix|..] else s
  }

  predicate HasSuffix(s: string, suffix: string) {
    |suffix| <= |s| && s[|s| - |suffix|..] == suffix
  }

  function TrimSuffix(s: string, suffix: string): string {
    if HasSuffix(s, suffix) then s[..|s| - |suffix|] else s
  }
}
