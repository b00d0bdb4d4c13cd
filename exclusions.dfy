/**
 * The buildings the dashboard leaves out (src/lib/buildingExclusions.ts): two
 * excluded ids, and a fallback match on the building name.
 */
module Exclusions {
  import opened Wrappers
  import opened Text

  /** A building id as the callers pass it: a string, an integer, null or undefined. */
  datatype BuildingId = IdText(s: string) | IdNumber(n: int) | IdNull | IdUndefined

  const ExcludedBuildingIds: set<string> := {"1926", "53"}

  const ExcludedNameSubstrings: seq<string> := ["hoop greenhouse", "mcpherson"]

  /** `String(buildingId)` for an id that is present. */
  function IdString(id: BuildingId): string
    requires id.IdText? || id.IdNumber?
  {
    if id.IdText? then id.s else IntToString(id.n)
  }

  /** `isExcludedBuildingId`: false for null and undefined, otherwise membership of the rendered id. */
  function IsExcludedBuildingId(id: BuildingId): (b: bool)
    ensures id.IdNull? || id.IdUndefined? ==> !b
    ensures id.IdText? ==> (b <==> id.s == "1926" || id.s == "53")
  {
    if id.IdNull? || id.IdUndefined? then false else IdString(id) in ExcludedBuildingIds
  }

  /** The decimal renderings of the two excluded numbers. */
  lemma RenderedExclusions()
    ensures IntToString(1926) == "1926" && IntToString(53) == "53"
  {
    Rendered1926();
    Rendered53();
  }

  lemma Rendered1926()
    ensures IntToString(1926) == "1926"
  {
    assert NatToString(1) == [DigitChar(1)] == "1";
    assert NatToString(19) == "1" + [DigitChar(9)] == "19";
    assert NatToString(192) == "19" + [DigitChar(2)] == "192";
    assert NatToString(1926) == "192" + [DigitChar(6)] == "1926";
  }

  lemma Rendered53()
    ensures IntToString(53) == "53"
  {
    assert NatToString(5) == [DigitChar(5)] == "5";
    assert NatToString(53) == "5" + [DigitChar(3)] == "53";
  }

  /** A numeric id is excluded exactly when it is 1926 or 53, like its string form. */
  lemma NumericIdExcluded(n: int)
    ensures IsExcludedBuildingId(IdNumber(n)) <==> n == 1926 || n == 53
    ensures IsExcludedBuildingId(IdNumber(n)) == IsExcludedBuildingId(IdText(IntToString(n)))
  {
    RenderedExclusions();
    if IntToString(n) == "1926" {
      IntToStringInjective(n, 1926);
    } else if IntToString(n) == "53" {
      IntToStringInjective(n, 53);
    }
  }

  /** The lower-cased name contains one of the excluded substrings. */
  predicate NameMatches(name: Option<string>) {
    var lowered := Lower(name.GetOr(""));
    exists i | 0 <= i < |ExcludedNameSubstrings| :: Contains(lowered, ExcludedNameSubstrings[i])
  }

  /** `isExcludedBuilding`: an excluded id, or else a name containing "hoop greenhouse" or "mcpherson" in any case. */
  function IsExcludedBuilding(id: BuildingId, name: Option<string>): (b: bool)
    ensures IsExcludedBuildingId(id) ==> b
    ensures !IsExcludedBuildingId(id) ==> (b <==> NameMatches(name))
  {
    if IsExcludedBuildingId(id) then true else NameMatches(name)
  }

  /** The name match ignores letter case. */
  lemma NameMatchCaseInsensitive(id: BuildingId, name: string)
    ensures IsExcludedBuilding(id, Some(Lower(name))) == IsExcludedBuilding(id, Some(name))
  {
    LowerIdempotent(name);
  }

  /** A missing or empty name never matches, so only the id can exclude such a building. */
  lemma BlankNameNotExcluded(id: BuildingId, name: Option<string>)
    requires name.None? || name == Some("")
    ensures IsExcludedBuilding(id, name) == IsExcludedBuildingId(id)
  {
    assert Lower("") == "";
    forall i | 0 <= i < |ExcludedNameSubstrings| ensures !Contains("", ExcludedNameSubstrings[i]) {
      assert |ExcludedNameSubstrings[i]| > 0;
    }
  }

  /** A name that contains an excluded name, in any case, excludes its building. */
  lemma NameContainingMatchExcluded(id: BuildingId, name: string, a: int, b: int)
    requires 0 <= a <= b <= |name| && NameMatches(Some(name[a..b]))
    ensures IsExcludedBuilding(id, Some(name))
  {
    var i :| 0 <= i < |ExcludedNameSubstrings| && Contains(Lower(name[a..b]), ExcludedNameSubstrings[i]);
    LowerContainsLowerSlice(name, a, b);
    ContainsTransitive(Lower(name), Lower(name[a..b]), ExcludedNameSubstrings[i]);
  }
}
