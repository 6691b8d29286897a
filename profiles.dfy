/** Profile eligibility: whether a migration belongs to the profiles of the
    current run. Profile names are compared ordinally and case-insensitively;
    case folding is modelled for ASCII letters only. */
module Profiles {
  import opened Migrations

  /** The upper-case form of an ASCII letter; every other character is its own. */
  function UpperAscii(c: char): (u: char)
    ensures 'a' <= c <= 'z' ==> 'A' <= u <= 'Z' && u as int == c as int - 32
    ensures !('a' <= c <= 'z') ==> u == c
  {
    if 'a' <= c <= 'z' then (c as int - 32) as char else c
  }

  /** `c` is a lower-case ASCII letter and `d` the same letter in upper case. */
  predicate LowerOf(c: char, d: char)
  {
    'a' <= c <= 'z' && d as int == c as int - 32
  }

  /** Two characters fold to the same character exactly when they are equal
      or are the two cases of one ASCII letter. */
  lemma SameFold(c: char, d: char)
    ensures UpperAscii(c) == UpperAscii(d) <==> c == d || LowerOf(c, d) || LowerOf(d, c)
  {
  }

  /** Ordinal, case-insensitive equality of two names. */
  predicate EqualsIgnoreCase(a: string, b: string)
  {
    |a| == |b| && forall i :: 0 <= i < |a| ==> UpperAscii(a[i]) == UpperAscii(b[i])
  }

  /** Case-insensitive equality is an equivalence, as a comparer used for
      intersecting sequences must be. */
  lemma EqualsIgnoreCaseIsEquivalence(a: string, b: string, c: string)
    ensures EqualsIgnoreCase(a, a)
    ensures EqualsIgnoreCase(a, b) ==> EqualsIgnoreCase(b, a)
    ensures EqualsIgnoreCase(a, b) && EqualsIgnoreCase(b, c) ==> EqualsIgnoreCase(a, c)
  {
  }

  /** Names of different lengths are never equal ignoring case, and a name
      equals a name that differs from it only in the case of its ASCII
      letters. */
  lemma EqualsIgnoreCaseByCharacters(a: string, b: string)
    ensures EqualsIgnoreCase(a, b) <==>
              |a| == |b| && forall i :: 0 <= i < |a| ==> a[i] == b[i] || LowerOf(a[i], b[i]) || LowerOf(b[i], a[i])
  {
    forall i | 0 <= i < |a| && i < |b| {
      SameFold(a[i], b[i]);
    }
  }

  /** Whether `name` equals, ignoring case, some element of `names`. */
  function ContainsIgnoreCase(names: seq<string>, name: string): (r: bool)
    ensures r <==> exists j :: 0 <= j < |names| && EqualsIgnoreCase(name, names[j])
  {
    if names == [] then false
    else EqualsIgnoreCase(name, names[0]) || ContainsIgnoreCase(names[1..], name)
  }

  /** The elements of `first` that have a case-insensitive match in `second`,
      in the order of `first`. */
  function Intersect(first: seq<string>, second: seq<string>): (r: seq<string>)
    ensures |r| <= |first|
    ensures forall k :: 0 <= k < |r| ==> r[k] in first && ContainsIgnoreCase(second, r[k])
    ensures forall i :: 0 <= i < |first| && ContainsIgnoreCase(second, first[i]) ==> first[i] in r
    ensures |r| > 0 <==> exists i :: 0 <= i < |first| && ContainsIgnoreCase(second, first[i])
  {
    if first == [] then []
    else if ContainsIgnoreCase(second, first[0]) then [first[0]] + Intersect(first[1..], second)
    else Intersect(first[1..], second)
  }

  /** A migration with no declared profile belongs to every run; otherwise it
      belongs to the run when one of the run's profiles equals, ignoring case,
      one of the migration's profiles. */
  function IsInCurrentMigrationProfile(attribute: MigrationAttribute, options: MigrationOptions): (r: bool)
    ensures attribute.profiles == [] ==> r
    ensures attribute.profiles != [] && options.profiles == [] ==> !r
    ensures r <==> attribute.profiles == [] ||
                   exists i, j :: 0 <= i < |options.profiles| && 0 <= j < |attribute.profiles| &&
                                  EqualsIgnoreCase(options.profiles[i], attribute.profiles[j])
  {
    if |attribute.profiles| == 0 then true
    else |Intersect(options.profiles, attribute.profiles)| > 0
  }
}
