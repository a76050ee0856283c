/** Entity naming: how a C# entity type plus an optional identifier becomes the
    `type:id` string the authorization engine stores.

    Two qualifiers exist side by side in the source and are kept apart here:
    the builder and introspector use `MakeEntityName` (Humanizer's snake_case
    `Underscore()` of the type name), while the checker uses plain
    lower-casing (`CheckerEntityName`). They agree on one-word type names
    such as `Form` and `User` and differ on compound names such as `CrmCompany`. */
module Naming {
  import opened Wrappers

  // ---------------------------------------------------------------------------
  // Characters (ASCII; C# identifiers in this system are ASCII)
  // ---------------------------------------------------------------------------

  predicate IsUpper(c: char) { 'A' <= c <= 'Z' }
  predicate IsLower(c: char) { 'a' <= c <= 'z' }
  predicate IsDigit(c: char) { '0' <= c <= '9' }
  predicate IsIdentChar(c: char) { IsUpper(c) || IsLower(c) || IsDigit(c) || c == '_' }

  predicate NoUpper(s: string) {
    forall i :: 0 <= i < |s| ==> !IsUpper(s[i])
  }

  predicate AllIdentChars(s: string) {
    forall i :: 0 <= i < |s| ==> IsIdentChar(s[i])
  }

  /** What `typeof(T).Name` can be for the entity records: a non-empty identifier. */
  predicate IsTypeName(s: string) {
    |s| > 0 && AllIdentChars(s)
  }

  /** A generic argument of the DSL: the runtime name of the C# type, tagged with
      the marker interfaces it implements (`IResource`/`Res`, `IAccessor`/`Accessor`). */
  datatype EntityType = EntityType(name: string, isResource: bool, isAccessor: bool)

  function LowerChar(c: char): (d: char)
    ensures !IsUpper(d)
    ensures IsIdentChar(c) ==> IsIdentChar(d)
    ensures IsUpper(c) ==> IsLower(d)
    ensures !IsUpper(c) ==> d == c
  {
    if IsUpper(c) then (c as int + 32) as char else c
  }

  // ---------------------------------------------------------------------------
  // Plain lower-casing (`typeof(T).Name.ToLower()` in the checker)
  // ---------------------------------------------------------------------------

  function Lower(s: string): (r: string)
    ensures |r| == |s|
    ensures NoUpper(r)
    ensures forall i :: 0 <= i < |s| ==> r[i] == LowerChar(s[i])
    ensures AllIdentChars(s) ==> AllIdentChars(r)
  {
    if s == [] then [] else [LowerChar(s[0])] + Lower(s[1..])
  }

  /** Lower-casing twice is lower-casing once. */
  lemma {:induction false} LowerIdempotent(s: string)
    ensures Lower(Lower(s)) == Lower(s)
  {
    var l := Lower(s);
    assert |Lower(l)| == |l|;
    forall i | 0 <= i < |l|
      ensures Lower(l)[i] == l[i]
    {
      assert !IsUpper(l[i]);
    }
  }

  // ---------------------------------------------------------------------------
  // snake_case (`typeof(T).Name.Underscore()` from Humanizer)
  // ---------------------------------------------------------------------------

  /** An underscore goes before position `i` when an upper-case letter there
      starts a new word: it follows a lower-case letter or digit, or it ends a
      run of capitals and is followed by a lower-case letter ("HTMLForm" ->
      "html_form"). These are Humanizer's two word-boundary rules. */
  predicate BreaksBefore(s: string, i: nat)
    requires i < |s|
  {
    && 0 < i
    && IsUpper(s[i])
    && (|| IsLower(s[i - 1])
        || IsDigit(s[i - 1])
        || (IsUpper(s[i - 1]) && i + 1 < |s| && IsLower(s[i + 1])))
  }

  function SnakeFrom(s: string, i: nat): (r: string)
    requires i <= |s|
    ensures |r| >= |s| - i
    ensures NoUpper(r)
    ensures AllIdentChars(s) ==> AllIdentChars(r)
    decreases |s| - i
  {
    if i == |s| then []
    else (if BreaksBefore(s, i) then "_" else "") + ([LowerChar(s[i])] + SnakeFrom(s, i + 1))
  }

  function Underscore(typeName: string): (r: string)
    ensures |r| >= |typeName|
    ensures NoUpper(r)
    ensures AllIdentChars(typeName) ==> AllIdentChars(r)
  {
    SnakeFrom(typeName, 0)
  }

  function DropUnderscores(s: string): (r: string)
    ensures '_' !in r
    ensures |r| <= |s|
  {
    if s == [] then []
    else (if s[0] == '_' then [] else [s[0]]) + DropUnderscores(s[1..])
  }

  lemma DropUnderscoresCons(c: char, rest: string)
    ensures DropUnderscores([c] + rest) == Kept(c) + DropUnderscores(rest)
  {
    assert ([c] + rest)[1..] == rest;
  }

  /** The character a step contributes once separators are dropped. */
  function Kept(c: char): string {
    if c == '_' then [] else [c]
  }

  lemma SnakeStepDrops(s: string, i: nat)
    requires i < |s|
    ensures DropUnderscores(SnakeFrom(s, i)) == Kept(LowerChar(s[i])) + DropUnderscores(SnakeFrom(s, i + 1))
  {
    var c := LowerChar(s[i]);
    var rest := [c] + SnakeFrom(s, i + 1);
    DropUnderscoresCons(c, SnakeFrom(s, i + 1));
    if BreaksBefore(s, i) {
      DropUnderscoresCons('_', rest);
    } else {
      assert SnakeFrom(s, i) == rest;
    }
  }

  lemma LowerStepDrops(s: string, i: nat)
    requires i < |s|
    ensures DropUnderscores(Lower(s[i..])) == Kept(LowerChar(s[i])) + DropUnderscores(Lower(s[i + 1..]))
  {
    assert s[i..][1..] == s[i + 1..];
    assert Lower(s[i..]) == [LowerChar(s[i])] + Lower(s[i + 1..]);
    DropUnderscoresCons(LowerChar(s[i]), Lower(s[i + 1..]));
  }

  lemma {:induction false} SnakeFromDropsToLower(s: string, i: nat)
    requires i <= |s|
    ensures DropUnderscores(SnakeFrom(s, i)) == DropUnderscores(Lower(s[i..]))
    decreases |s| - i
  {
    if i < |s| {
      SnakeFromDropsToLower(s, i + 1);
      SnakeStepDrops(s, i);
      LowerStepDrops(s, i);
    }
  }

  /** snake_case differs from lower-casing only by the separators it inserts. */
  lemma UnderscoreOnlyInsertsSeparators(typeName: string)
    ensures DropUnderscores(Underscore(typeName)) == DropUnderscores(Lower(typeName))
  {
    SnakeFromDropsToLower(typeName, 0);
    assert typeName[0..] == typeName;
  }

  /** No capital after the first letter: nothing starts a second word. */
  predicate SingleWord(s: string) {
    forall i :: 0 < i < |s| ==> !IsUpper(s[i])
  }

  lemma {:induction false} SnakeFromSingleWord(s: string, i: nat)
    requires i <= |s|
    requires SingleWord(s)
    ensures SnakeFrom(s, i) == Lower(s[i..])
    decreases |s| - i
  {
    if i < |s| {
      assert !BreaksBefore(s, i);
      SnakeFromSingleWord(s, i + 1);
      assert s[i..][1..] == s[i + 1..];
    }
  }

  /** For one-word type names the checker's and the builder's qualifiers agree. */
  lemma SingleWordQualifiersAgree(typeName: string)
    requires SingleWord(typeName)
    ensures Underscore(typeName) == Lower(typeName)
  {
    SnakeFromSingleWord(typeName, 0);
    assert typeName[0..] == typeName;
  }

  /** A word boundary at or after `i` leaves a separator in the snake_case text. */
  lemma {:induction false} SnakeFromKeepsBreak(s: string, i: nat, k: nat)
    requires i <= k < |s|
    requires BreaksBefore(s, k)
    ensures '_' in SnakeFrom(s, i)
    decreases k - i
  {
    var tail := SnakeFrom(s, i + 1);
    if i == k {
      assert SnakeFrom(s, i)[0] == '_';
    } else {
      SnakeFromKeepsBreak(s, i + 1, k);
      var j :| 0 <= j < |tail| && tail[j] == '_';
      var sep: string := if BreaksBefore(s, i) then "_" else "";
      assert SnakeFrom(s, i) == sep + ([LowerChar(s[i])] + tail);
      assert SnakeFrom(s, i)[|sep| + 1 + j] == '_';
    }
  }

  /** Lower-casing never produces an underscore that was not there. */
  lemma LowerAddsNoUnderscore(s: string)
    requires '_' !in s
    ensures '_' !in Lower(s)
  {
    forall i | 0 <= i < |s|
      ensures Lower(s)[i] != '_'
    {
      assert s[i] != '_';
    }
  }

  /** ... and for a compound name (`CrmCompany`: a capital after a lower-case
      letter) they do not: the builder's token has a separator the checker's
      lacks. */
  lemma CompoundNamesDiffer(typeName: string, k: nat)
    requires k < |typeName| && BreaksBefore(typeName, k)
    requires '_' !in typeName
    ensures '_' in Underscore(typeName)
    ensures '_' !in Lower(typeName)
    ensures Underscore(typeName) != Lower(typeName)
  {
    SnakeFromKeepsBreak(typeName, 0, k);
    LowerAddsNoUnderscore(typeName);
  }

  // ---------------------------------------------------------------------------
  // Qualified entity names
  // ---------------------------------------------------------------------------

  /** `Permissions.MakeEntityName<T>(id)`: `type:id`, or the bare type token
      when no id is given (used for type-scoped queries). */
  function MakeEntityName(t: EntityType, id: Option<string> := None): (r: string)
    ensures Underscore(t.name) <= r
    ensures id.None? ==> |r| == |Underscore(t.name)|
    ensures id.Some? ==> r[|Underscore(t.name)|..] == [':'] + id.value
    ensures IsTypeName(t.name) ==> (':' in r <==> id.Some?)
  {
    var typeName := Underscore(t.name);
    match id
    case Some(v) =>
      var r := typeName + ":" + v;
      assert r[|typeName|] == ':';
      r
    case None =>
      assert IsTypeName(t.name) ==> ':' !in typeName by {
        if IsTypeName(t.name) {
          IdentCharsHaveNoColon(typeName);
        }
      }
      typeName
  }

  /** The checker's qualifier: `typeof(T).Name.ToLower() + ":" + id`. */
  function CheckerEntityName(t: EntityType, id: string): (r: string)
    ensures Lower(t.name) <= r
    ensures r[|t.name|..] == [':'] + id
  {
    Lower(t.name) + ":" + id
  }

  // ---------------------------------------------------------------------------
  // The inverse: splitting a qualified name at its first colon
  // ---------------------------------------------------------------------------

  function ColonIndex(s: string): (r: Option<nat>)
    ensures r.None? <==> ':' !in s
    ensures r.Some? ==> r.value < |s| && s[r.value] == ':' && ':' !in s[..r.value]
  {
    if s == [] then None
    else if s[0] == ':' then Some(0)
    else match ColonIndex(s[1..])
      case None => None
      case Some(k) =>
        assert s[..k + 1] == [s[0]] + s[1..][..k];
        Some(k + 1)
  }

  /** Type token and optional id of an entity name, as the engine reads it. */
  function SplitEntityName(s: string): (r: (string, Option<string>))
    ensures r.1.None? ==> r.0 == s
    ensures r.1.Some? ==> s == r.0 + ":" + r.1.value && ':' !in r.0
  {
    match ColonIndex(s)
    case None => (s, None)
    case Some(k) =>
      assert s == s[..k] + ":" + s[k + 1..];
      (s[..k], Some(s[k + 1..]))
  }

  lemma IdentCharsHaveNoColon(s: string)
    requires AllIdentChars(s)
    ensures ':' !in s
  {
    forall k | 0 <= k < |s|
      ensures s[k] != ':'
    {
      assert IsIdentChar(s[k]);
    }
  }

  lemma {:induction false} ColonIndexOfQualified(prefix: string, id: string)
    requires ':' !in prefix
    ensures ColonIndex(prefix + ":" + id) == Some(|prefix|)
  {
    var s := prefix + ":" + id;
    if prefix != [] {
      assert s[0] == prefix[0];
      assert s[1..] == prefix[1..] + ":" + id;
      ColonIndexOfQualified(prefix[1..], id);
    }
  }

  lemma SplitQualified(prefix: string, id: string)
    requires ':' !in prefix
    ensures SplitEntityName(prefix + ":" + id) == (prefix, Some(id))
  {
    var s := prefix + ":" + id;
    ColonIndexOfQualified(prefix, id);
    assert s[..|prefix|] == prefix;
    assert s[|prefix| + 1..] == id;
  }

  /** Splitting a builder entity name gives back its type token and its id. */
  lemma EntityNameRoundTrip(t: EntityType, id: Option<string>)
    requires IsTypeName(t.name)
    ensures SplitEntityName(MakeEntityName(t, id)) == (Underscore(t.name), id)
  {
    IdentCharsHaveNoColon(Underscore(t.name));
    if id.Some? {
      SplitQualified(Underscore(t.name), id.value);
    }
  }

  /** Distinct ids of one type give distinct entity names. */
  lemma EntityNameInjective(t1: EntityType, id1: Option<string>, t2: EntityType, id2: Option<string>)
    requires IsTypeName(t1.name) && IsTypeName(t2.name)
    requires MakeEntityName(t1, id1) == MakeEntityName(t2, id2)
    ensures id1 == id2
    ensures Underscore(t1.name) == Underscore(t2.name)
  {
    EntityNameRoundTrip(t1, id1);
    EntityNameRoundTrip(t2, id2);
  }

  /** Splitting a checker entity name gives back the lower-cased type and the id. */
  lemma CheckerEntityNameRoundTrip(t: EntityType, id: string)
    requires IsTypeName(t.name)
    ensures SplitEntityName(CheckerEntityName(t, id)) == (Lower(t.name), Some(id))
  {
    IdentCharsHaveNoColon(Lower(t.name));
    SplitQualified(Lower(t.name), id);
  }
}
