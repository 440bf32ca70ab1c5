/** The tag matcher: picks the first vocabulary term that occurs in some part of
    a path, used to fill the `Species` and `activity` fields of every record. */
module Tags {
  import opened Outcomes
  import opened Strings
  import Paths

  /** The subject vocabulary, in declaration order (helper_functions.py line 20). */
  const SpeciesTypes: seq<string> :=
    ["Corals", "Dugong", "Turtles", "Flying Fish", "Flora And Fauna", "Bird", "Cetaceans"]

  /** The activity vocabulary, in declaration order (helper_functions.py line 21). */
  const ActivityTypes: seq<string> :=
    ["Restoration", "Survey", "Study", "Species Management", "Species_Recovery"]

  /** A vocabulary term as it is searched for: lower case, spaces as underscores. */
  function NormTerm(v: string): string {
    Replace(Lower(v), ' ', '_')
  }

  /** A path part as it is searched in: spaces as underscores, case untouched. */
  function NormPart(p: string): string {
    Replace(p, ' ', '_')
  }

  /** Some part, normalised, contains `needle`; computed part by part. */
  predicate AnyPartContains(parts: seq<string>, needle: string)
    decreases |parts|
  {
    |parts| > 0 && (Contains(NormPart(parts[0]), needle) || AnyPartContains(parts[1..], needle))
  }

  /** The term `v` matches the parts: `any(v_norm in p.replace(" ", "_") for p in parts)`. */
  predicate Matches(v: string, parts: seq<string>) {
    AnyPartContains(parts, NormTerm(v))
  }

  /** The part-by-part search agrees with "some part contains the term". */
  lemma {:induction false} MatchesIff(v: string, parts: seq<string>)
    ensures Matches(v, parts) <==>
            exists k :: 0 <= k < |parts| && Contains(NormPart(parts[k]), NormTerm(v))
    decreases |parts|
  {
    if |parts| > 0 {
      MatchesIff(v, parts[1..]);
      if exists k :: 0 <= k < |parts| && Contains(NormPart(parts[k]), NormTerm(v)) {
        var k :| 0 <= k < |parts| && Contains(NormPart(parts[k]), NormTerm(v));
        if k > 0 {
          assert parts[1..][k - 1] == parts[k];
        }
      }
    }
  }

  /** `values[i]` is the first term of `values` that matches. */
  predicate FirstMatchAt(values: seq<string>, parts: seq<string>, i: int) {
    0 <= i < |values| && Matches(values[i], parts) &&
    forall j :: 0 <= j < i ==> !Matches(values[j], parts)
  }

  /** `find_match(values, parts)`: the first term, in vocabulary order, that occurs in
      some part; None when no term does. */
  function FindMatch(values: seq<string>, parts: seq<string>): Option<string>
    decreases |values|
  {
    if |values| == 0 then None
    else if Matches(values[0], parts) then Some(values[0])
    else FindMatch(values[1..], parts)
  }

  /** `find_match` returns a term only if it matches and no earlier term does, and
      returns None exactly when no term matches. */
  lemma {:induction false} FindMatchFirst(values: seq<string>, parts: seq<string>)
    ensures FindMatch(values, parts).None? <==> forall i :: 0 <= i < |values| ==> !Matches(values[i], parts)
    ensures FindMatch(values, parts).Some? ==>
              exists i :: FirstMatchAt(values, parts, i) && FindMatch(values, parts).value == values[i]
    decreases |values|
  {
    if |values| > 0 {
      if Matches(values[0], parts) {
        assert FirstMatchAt(values, parts, 0);
      } else {
        var rest := values[1..];
        FindMatchFirst(rest, parts);
        assert forall i :: 1 <= i < |values| ==> values[i] == rest[i - 1];
        if FindMatch(rest, parts).Some? {
          var i :| FirstMatchAt(rest, parts, i) && FindMatch(rest, parts).value == rest[i];
          assert FirstMatchAt(values, parts, i + 1);
        }
      }
    }
  }

  /** Tie-break by declaration order: when the term at index `i` matches, the result
      is the first matching term, which sits at or before `i`. */
  lemma EarlierTermWins(values: seq<string>, parts: seq<string>, i: int)
    requires 0 <= i < |values| && Matches(values[i], parts)
    ensures exists k :: 0 <= k <= i && FirstMatchAt(values, parts, k) &&
                        FindMatch(values, parts) == Some(values[k])
  {
    FindMatchFirst(values, parts);
    var k :| FirstMatchAt(values, parts, k) && FindMatch(values, parts).value == values[k];
  }

  /** The lower-cased parts of a path, as each extractor prepares them. */
  function PathPartsLower(path: string): seq<string> {
    LowerAll(Split(path, Paths.Sep))
  }

  /** The `Species` field an extractor records for a path. */
  function SpeciesTag(path: string): Option<string> {
    FindMatch(SpeciesTypes, PathPartsLower(path))
  }

  /** The `activity` field an extractor records for a path. */
  function ActivityTag(path: string): Option<string> {
    FindMatch(ActivityTypes, PathPartsLower(path))
  }

  /** Tagging ignores the case of the path: the extractors lower-case every part
      before matching, so a path and its lower-cased form get the same tags. */
  lemma TagsIgnoreCase(path: string)
    ensures SpeciesTag(Lower(path)) == SpeciesTag(path)
    ensures ActivityTag(Lower(path)) == ActivityTag(path)
  {
    PartsIgnoreCase(path);
  }

  /** The lower-cased parts of a path and of its lower-cased form agree. */
  lemma PartsIgnoreCase(path: string)
    ensures PathPartsLower(Lower(path)) == PathPartsLower(path)
  {
    SplitLower(path, Paths.Sep);
    var parts := Split(path, Paths.Sep);
    forall k | 0 <= k < |parts|
      ensures Lower(Lower(parts[k])) == Lower(parts[k])
    {
      LowerIdempotent(parts[k]);
    }
  }
}
