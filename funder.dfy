/** The Funder entity of data/entities/funder.py. `__post_init__` validates
    the identifiers and rewrites `all_names` in place, and `add_alias` appends
    to it, so the funder is a class whose `allNames` field those methods
    reassign; the name predicates read it. */
module FunderEntity {
  import opened Wrappers
  import opened Text

  /** The bernie number format the constructor enforces: the "BN" prefix
      and exactly eight characters. The remaining six are not checked. */
  predicate ValidBernieNumber(b: string) {
    b != "" && StartsWith(b, "BN") && |b| == 8
  }

  /** An EIN, when given, is nine ASCII digits. */
  predicate ValidEin(ein: Option<string>) {
    ein.Some? ==> |ein.value| == 9 && AllDigits(ein.value)
  }

  /** The ValueErrors of `__post_init__`. */
  datatype FunderError =
    | MissingBernieNumber
    | InvalidPrefix(bernieNumber: string)
    | InvalidLength(bernieNumber: string)
    | MissingCanonicalName
    | InvalidEinLength(ein: string)
    | NonNumericEin(ein: string)

  /** The checks of `__post_init__` in source order: the first failing one,
      or None when the funder is accepted. */
  function FunderCheck(bernieNumber: string, canonicalName: string, ein: Option<string>): (r: Option<FunderError>)
    ensures r.None? <==> ValidBernieNumber(bernieNumber) && Strip(canonicalName) != "" && ValidEin(ein)
    ensures bernieNumber == "" ==> r == Some(MissingBernieNumber)
    ensures bernieNumber != "" && !StartsWith(bernieNumber, "BN") ==> r == Some(InvalidPrefix(bernieNumber))
    ensures StartsWith(bernieNumber, "BN") && |bernieNumber| != 8 ==> r == Some(InvalidLength(bernieNumber))
    ensures ValidBernieNumber(bernieNumber) && Strip(canonicalName) == "" ==> r == Some(MissingCanonicalName)
    ensures r.Some? && r.value.InvalidEinLength? ==> ein == Some(r.value.ein) && |r.value.ein| != 9
    ensures r.Some? && r.value.NonNumericEin? ==> ein == Some(r.value.ein) && |r.value.ein| == 9 && !AllDigits(r.value.ein)
  {
    if bernieNumber == "" then Some(MissingBernieNumber)
    else if !StartsWith(bernieNumber, "BN") then Some(InvalidPrefix(bernieNumber))
    else if |bernieNumber| != 8 then Some(InvalidLength(bernieNumber))
    else if Strip(canonicalName) == "" then Some(MissingCanonicalName)
    else if ein.Some? && |ein.value| != 9 then Some(InvalidEinLength(ein.value))
    else if ein.Some? && !AllDigits(ein.value) then Some(NonNumericEin(ein.value))
    else None
  }

  /** The name list after `__post_init__`: the canonical name is put first
      when it is missing (an empty list becomes just the canonical name);
      otherwise the list is kept as it is. */
  function NormalizeNames(canonicalName: string, names: seq<string>): (r: seq<string>)
    ensures canonicalName in r
    ensures forall n :: n in names ==> n in r
    ensures forall n :: n in r ==> n == canonicalName || n in names
    ensures canonicalName in names ==> r == names
    ensures canonicalName !in names ==> r[0] == canonicalName && r[1..] == names
  {
    if names == [] then [canonicalName]
    else if canonicalName !in names then [canonicalName] + names
    else names
  }

  /** Normalising twice is normalising once. */
  lemma NormalizeNamesIdempotent(canonicalName: string, names: seq<string>)
    ensures NormalizeNames(canonicalName, NormalizeNames(canonicalName, names)) == NormalizeNames(canonicalName, names)
  {
  }

  /** `has_alias` over a name list: the empty name matches nothing; otherwise
      some name has the same lower-cased, trimmed form. */
  predicate NamesHaveAlias(names: seq<string>, name: string) {
    name != "" && exists i :: 0 <= i < |names| && LowerStrip(names[i]) == LowerStrip(name)
  }

  /** The substring test of fuzzy matching: the lower-cased, trimmed name
      occurs in a lower-cased name of the list, or one of those occurs in
      it. */
  predicate SubstringMatch(names: seq<string>, name: string) {
    exists i :: 0 <= i < |names| &&
      (Contains(Lower(names[i]), LowerStrip(name)) || Contains(LowerStrip(name), Lower(names[i])))
  }

  /** The name list after `add_alias(alias)`: a blank alias is ignored; the
      trimmed alias is appended unless the list already has it. */
  function WithAlias(names: seq<string>, alias: string): seq<string> {
    var clean := Strip(alias);
    if clean == "" then names
    else if NamesHaveAlias(names, clean) then names
    else names + [clean]
  }

  /** A blank alias changes nothing; otherwise the alias is present
      afterwards, and the list grows by the trimmed alias exactly when no
      name matched it. */
  lemma WithAliasSpec(names: seq<string>, alias: string)
    ensures var r := WithAlias(names, alias);
      Strip(alias) == "" ==> r == names
    ensures var r := WithAlias(names, alias);
      Strip(alias) != "" ==> NamesHaveAlias(r, alias)
    ensures var r := WithAlias(names, alias);
      |names| <= |r| <= |names| + 1 && r[..|names|] == names
    ensures var r := WithAlias(names, alias);
      |r| == |names| + 1 <==> Strip(alias) != "" && !NamesHaveAlias(names, Strip(alias))
    ensures var r := WithAlias(names, alias);
      |r| == |names| + 1 ==> r[|names|] == Strip(alias)
  {
    WithAliasShape(names, alias);
    WithAliasPresent(names, alias);
  }

  lemma WithAliasShape(names: seq<string>, alias: string)
    ensures var r := WithAlias(names, alias);
      && (Strip(alias) == "" ==> r == names)
      && |names| <= |r| <= |names| + 1 && r[..|names|] == names
      && (|r| == |names| + 1 <==> Strip(alias) != "" && !NamesHaveAlias(names, Strip(alias)))
      && (|r| == |names| + 1 ==> r[|names|] == Strip(alias))
  {
    var clean := Strip(alias);
    assert names[..|names|] == names;
    if clean != "" && !NamesHaveAlias(names, clean) {
      var r := names + [clean];
      assert WithAlias(names, alias) == r;
      assert r[..|names|] == names;
    }
  }

  lemma WithAliasPresent(names: seq<string>, alias: string)
    ensures Strip(alias) != "" ==> NamesHaveAlias(WithAlias(names, alias), alias)
  {
    var clean := Strip(alias);
    if clean != "" {
      LowerStripInvariant(alias);
      if NamesHaveAlias(names, clean) {
        var i :| 0 <= i < |names| && LowerStrip(names[i]) == LowerStrip(clean);
        assert LowerStrip(names[i]) == LowerStrip(alias);
      } else {
        var r := names + [clean];
        assert WithAlias(names, alias) == r;
        assert LowerStrip(r[|names|]) == LowerStrip(alias);
      }
    }
  }

  /** Adding the same alias twice adds it once. */
  lemma WithAliasIdempotent(names: seq<string>, alias: string)
    ensures WithAlias(WithAlias(names, alias), alias) == WithAlias(names, alias)
  {
    LowerStripInvariant(alias);
    WithAliasSpec(names, alias);
  }

  /** Adding an alias loses no name, so a funder stays valid. */
  lemma WithAliasKeepsNames(names: seq<string>, alias: string, n: string)
    requires n in names
    ensures n in WithAlias(names, alias)
  {
    var r := WithAlias(names, alias);
    var i :| 0 <= i < |names| && names[i] == n;
    assert r[i] == n;
  }

  class Funder {
    var bernieNumber: string
    var canonicalName: string
    var allNames: seq<string>
    var ein: Option<string>
    var bloomerangApiCid: Option<int>
    var bloomerangAccountId: Option<int>
    var id: Option<int>

    /** What a successfully constructed funder satisfies. */
    predicate Valid()
      reads this
    {
      && ValidBernieNumber(bernieNumber)
      && Strip(canonicalName) != ""
      && canonicalName in allNames
      && ValidEin(ein)
    }

    /** The dataclass `__init__`: the fields as given, before the checks. */
    constructor (bernieNumber: string, canonicalName: string, allNames: seq<string>,
                 ein: Option<string> := None, bloomerangApiCid: Option<int> := None,
                 bloomerangAccountId: Option<int> := None, id: Option<int> := None)
      ensures this.bernieNumber == bernieNumber && this.canonicalName == canonicalName
      ensures this.allNames == allNames && this.ein == ein
      ensures this.bloomerangApiCid == bloomerangApiCid
      ensures this.bloomerangAccountId == bloomerangAccountId && this.id == id
    {
      this.bernieNumber := bernieNumber;
      this.canonicalName := canonicalName;
      this.allNames := allNames;
      this.ein := ein;
      this.bloomerangApiCid := bloomerangApiCid;
      this.bloomerangAccountId := bloomerangAccountId;
      this.id := id;
    }

    /** `__post_init__`: the bernie and name checks, then the rewrite of
        `allNames`, then the EIN checks. The returned error is the first
        failing check; `allNames` is already rewritten when only the EIN is
        at fault. */
    method PostInit() returns (err: Option<FunderError>)
      modifies this
      ensures err == FunderCheck(old(bernieNumber), old(canonicalName), old(ein))
      ensures bernieNumber == old(bernieNumber) && canonicalName == old(canonicalName) && ein == old(ein)
      ensures bloomerangApiCid == old(bloomerangApiCid) && bloomerangAccountId == old(bloomerangAccountId)
      ensures id == old(id)
      ensures ValidBernieNumber(bernieNumber) && Strip(canonicalName) != "" ==>
        allNames == NormalizeNames(canonicalName, old(allNames))
      ensures !(ValidBernieNumber(bernieNumber) && Strip(canonicalName) != "") ==> allNames == old(allNames)
      ensures err.None? <==> Valid()
    {
      if bernieNumber == "" {
        return Some(MissingBernieNumber);
      }
      if !StartsWith(bernieNumber, "BN") {
        return Some(InvalidPrefix(bernieNumber));
      }
      if |bernieNumber| != 8 {
        return Some(InvalidLength(bernieNumber));
      }
      if Strip(canonicalName) == "" {
        return Some(MissingCanonicalName);
      }
      if allNames == [] {
        allNames := [canonicalName];
      } else if canonicalName !in allNames {
        allNames := [canonicalName] + allNames;
      }
      if ein.Some? {
        if |ein.value| != 9 {
          return Some(InvalidEinLength(ein.value));
        }
        if !AllDigits(ein.value) {
          return Some(NonNumericEin(ein.value));
        }
      }
      return None;
    }

    /** `has_alias(name)` */
    predicate HasAlias(name: string)
      reads this
    {
      NamesHaveAlias(allNames, name)
    }

    /** `matches_name(name, fuzzy)` as written: a whitespace-only name is
        not caught by the emptiness test, trims to "", and "" occurs in every
        alias. */
    predicate MatchesNameAsWritten(name: string, fuzzy: bool := false)
      reads this
    {
      if name == "" then false
      else if HasAlias(name) then true
      else fuzzy && SubstringMatch(allNames, name)
    }

    /** `matches_name(name, fuzzy)` with blank names rejected, as the
        emptiness test evidently intends. */
    predicate MatchesName(name: string, fuzzy: bool := false)
      reads this
    {
      if Strip(name) == "" then false
      else if HasAlias(name) then true
      else fuzzy && SubstringMatch(allNames, name)
    }

    /** `add_alias(alias)`: appends in place, as `WithAlias` describes. */
    method AddAlias(alias: string)
      modifies this
      ensures allNames == WithAlias(old(allNames), alias)
      ensures bernieNumber == old(bernieNumber) && canonicalName == old(canonicalName) && ein == old(ein)
      ensures bloomerangApiCid == old(bloomerangApiCid) && bloomerangAccountId == old(bloomerangAccountId)
      ensures id == old(id)
    {
      var clean := Strip(alias);
      if clean == "" {
        return;
      }
      if !HasAlias(clean) {
        allNames := allNames + [clean];
      }
    }
  }

  /** `Funder(bernie_number, canonical_name, all_names, ein, ...)`:
      construction followed by `__post_init__`. The dataclass declares
      `all_names` without a default; the empty default here stands for the
      callers that leave it out, and `__post_init__` then makes it the
      canonical name alone. */
  method Create(bernieNumber: string, canonicalName: string, allNames: seq<string> := [],
                ein: Option<string> := None) returns (r: Result<Funder, FunderError>)
    ensures r.Failure? <==> FunderCheck(bernieNumber, canonicalName, ein).Some?
    ensures r.Failure? ==> r.error == FunderCheck(bernieNumber, canonicalName, ein).value
    ensures r.Success? ==> fresh(r.value) && r.value.Valid()
    ensures r.Success? ==> r.value.bernieNumber == bernieNumber && r.value.canonicalName == canonicalName
    ensures r.Success? ==> r.value.allNames == NormalizeNames(canonicalName, allNames) && r.value.ein == ein
  {
    var f := new Funder(bernieNumber, canonicalName, allNames, ein);
    var err := f.PostInit();
    if err.Some? {
      return Failure(err.value);
    }
    return Success(f);
  }

  /** After a successful construction the canonical name is an alias, and
      an alias added afterwards is one too. */
  lemma AliasesAfterAdd(names: seq<string>, canonicalName: string, alias: string)
    requires Strip(canonicalName) != ""
    ensures NamesHaveAlias(NormalizeNames(canonicalName, names), canonicalName)
    ensures Strip(alias) != "" ==> NamesHaveAlias(WithAlias(NormalizeNames(canonicalName, names), alias), alias)
  {
    var r := NormalizeNames(canonicalName, names);
    var i :| 0 <= i < |r| && r[i] == canonicalName;
    WithAliasSpec(r, alias);
  }

  /** An exact match implies a fuzzy one, and a fuzzy match of a non-blank
      name is exactly the substring test (an exact match is a substring
      match). */
  lemma {:induction false} FuzzyMatching(f: Funder, name: string)
    ensures f.MatchesName(name) ==> f.MatchesName(name, true)
    ensures Strip(name) != "" ==> (f.MatchesName(name, true) <==> SubstringMatch(f.allNames, name))
    ensures f.MatchesName(name, true) ==> Strip(name) != ""
  {
    if Strip(name) != "" && f.HasAlias(name) {
      var i :| 0 <= i < |f.allNames| && LowerStrip(f.allNames[i]) == LowerStrip(name);
      StripContained(Lower(f.allNames[i]));
      assert Contains(Lower(f.allNames[i]), LowerStrip(name));
    }
  }

  /** The as-written matcher agrees with the intended one except on blank
      names: a whitespace-only name fuzzily matches every funder, since
      every funder has at least one name. */
  lemma BlankNameMatchesEveryFunder(f: Funder)
    requires f.Valid()
    ensures f.MatchesNameAsWritten(" ", true)
    ensures !f.MatchesName(" ", true)
  {
    var i :| 0 <= i < |f.allNames| && f.allNames[i] == f.canonicalName;
    SpaceIsBlank();
    EmptyContained(Lower(f.allNames[i]));
    assert SubstringMatch(f.allNames, " ");
  }

  /** A single space trims to the empty string, lower-cased or not. */
  lemma SpaceIsBlank()
    ensures Strip(" ") == "" && LowerStrip(" ") == ""
  {
    StripEmptyIffBlank(" ");
    assert Lower(" ") == " ";
  }

  lemma MatchersAgreeOnNonBlank(f: Funder, name: string, fuzzy: bool)
    ensures Strip(name) != "" ==> (f.MatchesNameAsWritten(name, fuzzy) <==> f.MatchesName(name, fuzzy))
  {
    if name == "" {
      assert Strip(name) == "";
    }
  }
}
