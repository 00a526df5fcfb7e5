/** The development team member of data/entities/dev_team.py: a name (and
    optional email) checked at construction, and a case-insensitive name
    matcher. */
module DevTeam {
  import opened Wrappers
  import opened Text

  datatype DevTeamMember = DevTeamMember(
    name: string,
    email: Option<string> := None,
    role: Option<string> := None,
    id: Option<int> := None)
  {
    /** What a successfully constructed member satisfies. */
    predicate Valid() {
      Strip(name) != "" && (email.Some? && email.value != "" ==> '@' in email.value)
    }

    /** `matches_name`: false for the empty string, otherwise equality of
        the lower-cased, trimmed names. */
    predicate MatchesName(other: string) {
      other != "" && LowerStrip(name) == LowerStrip(other)
    }
  }

  /** The ValueErrors of `__post_init__`. */
  datatype DevTeamError = MissingName | InvalidEmail(email: string)

  /** `DevTeamMember(...)`: a blank name fails first; then a non-empty email
      without '@'. */
  function Create(m: DevTeamMember): (r: Result<DevTeamMember, DevTeamError>)
    ensures r.Success? <==> m.Valid()
    ensures r.Success? ==> r.value == m
    ensures Strip(m.name) == "" ==> r == Failure(MissingName)
    ensures Strip(m.name) != "" && m.email.Some? && m.email.value != "" && '@' !in m.email.value
      ==> r == Failure(InvalidEmail(m.email.value))
  {
    if Strip(m.name) == "" then Failure(MissingName)
    else if m.email.Some? && m.email.value != "" && '@' !in m.email.value then
      Failure(InvalidEmail(m.email.value))
    else Success(m)
  }

  /** The name check rejects exactly the all-whitespace names (the empty one
      included); an absent or empty email is not checked. */
  lemma NameCheck(m: DevTeamMember)
    ensures Create(m).Success? ==> exists i :: 0 <= i < |m.name| && !IsSpace(m.name[i])
    ensures (forall i :: 0 <= i < |m.name| ==> IsSpace(m.name[i])) ==> Create(m) == Failure(MissingName)
    ensures Strip(m.name) != "" ==> Create(m.(email := None)).Success? && Create(m.(email := Some(""))).Success?
  {
    StripEmptyIffBlank(m.name);
  }

  /** A valid member matches its own name, and matching ignores letter case
      and surrounding whitespace of the candidate; it is symmetric between
      two members. */
  lemma {:induction false} MatchesNameProperties(m: DevTeamMember, other: string)
    ensures m.Valid() ==> m.MatchesName(m.name)
    ensures other != "" ==> (m.MatchesName(Lower(other)) <==> m.MatchesName(other))
    ensures Strip(other) != "" ==> (m.MatchesName(Strip(other)) <==> m.MatchesName(other))
    ensures m.MatchesName(other) && m.name != "" ==> DevTeamMember(other).MatchesName(m.name)
  {
    LowerStripInvariant(other);
    if m.name == "" {
      assert Strip(m.name) == "";
    }
    if other != "" {
      assert |Lower(other)| == |other|;
    }
  }

  /** The empty string never matches; a different trimmed, lower-cased name
      does not either. */
  lemma NoMatch(m: DevTeamMember, other: string)
    ensures !m.MatchesName("")
    ensures LowerStrip(other) != LowerStrip(m.name) ==> !m.MatchesName(other)
  {
  }
}
