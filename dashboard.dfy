/** The dashboard's skill state: the sorted skill list and its loading flag, the fetch
    that fills it for the signed-in user, `addSkill`, which trims the name and refuses a
    name already present up to letter case, and the handler that turns text extracted
    from the chat or the roadmap into `addSkill` calls. */
module Dashboard {
  import opened Wrappers
  import opened Strings
  import opened SkillList

  /** The proficiency `addSkill` uses when its caller gives none. */
  const DefaultProficiency: int := 1

  /** `skills.some(s => s.name.toLowerCase() === name.toLowerCase())`. */
  function SomeNameMatches(skills: seq<Skill>, name: string): (r: bool)
    ensures r <==> exists i :: 0 <= i < |skills| && ToLower(skills[i].name) == ToLower(name)
  {
    if skills == [] then false
    else ToLower(skills[0].name) == ToLower(name) || SomeNameMatches(skills[1..], name)
  }

  /** No two entries share a name up to letter case, and no entry occurs twice. Stated
      on the multiset of entries, so it does not depend on their order. */
  ghost predicate DistinctIgnoringCase(skills: seq<Skill>) {
    forall x, y :: x in multiset(skills) && y in multiset(skills) && ToLower(x.name) == ToLower(y.name)
      ==> x == y && multiset(skills)[x] == 1
  }

  /** Appending a name that no entry matches up to case, then sorting, keeps the entries
      distinct up to case. */
  lemma AddKeepsDistinct(skills: seq<Skill>, entry: Skill, le: (string, string) -> bool)
    requires IsCollation(le) && DistinctIgnoringCase(skills)
    requires !SomeNameMatches(skills, entry.name)
    ensures DistinctIgnoringCase(SortByName(skills + [entry], le))
  {
    var r := SortByName(skills + [entry], le);
    assert multiset(r) == multiset(skills) + multiset{entry};
    forall x | x in multiset(skills)
      ensures ToLower(x.name) != ToLower(entry.name)
    {
      var i :| 0 <= i < |skills| && skills[i] == x;
    }
  }

  /** What the `extract-skills` function returns: `{error}`, or data whose `skills` field
      is absent, `null` or a list of names (a `null` data object throws on the field read,
      which has the same effect as a missing field). */
  datatype Extraction = ExtractFailed(message: string) | Extracted(skills: Option<seq<string>>)

  /** `handleNewTextContent`: the names `addSkill` is called with, in order. There is one
      call per extracted name when the extraction succeeds with a non-empty list, and no
      call otherwise. */
  function SkillsToAdd(extraction: Extraction): (calls: seq<string>)
    ensures calls != [] <==>
      extraction.Extracted? && extraction.skills.Some? && extraction.skills.value != []
    ensures calls != [] ==> calls == extraction.skills.value
  {
    match extraction
    case ExtractFailed(_) => []
    case Extracted(None) => []
    case Extracted(Some(names)) => names
  }

  class DashboardState {
    var userSkills: seq<Skill>
    var loadingSkills: bool

    /** The initial state: no skills, loading. */
    constructor()
      ensures userSkills == [] && loadingSkills
    {
      userSkills := [];
      loadingSkills := true;
    }

    /** The mount effect: without a signed-in user it throws, which only logs, and keeps
        the list; otherwise it fetches the user's rows and, when that yields a formatted
        list, puts it in place sorted by name. The flag is cleared in every case. */
    method FetchUserSkills(user: Option<string>, fetch: Fetch, le: (string, string) -> bool)
      requires IsCollation(le)
      modifies this
      ensures !loadingSkills
      ensures user.None? ==> userSkills == old(userSkills)
      ensures user.Some? && FetchedSkills(fetch, le).Some? ==> userSkills == FetchedSkills(fetch, le).value
      ensures user.Some? && FetchedSkills(fetch, le).None? ==> userSkills == old(userSkills)
    {
      loadingSkills := true;
      if user.Some? {
        var result := FetchedSkills(fetch, le);
        if result.Some? {
          userSkills := result.value;
        }
      }
      loadingSkills := false;
    }

    /** `addSkill(skillName, proficiency = 1)`: the name is trimmed first; a name some entry
        already has up to case is refused with no change. Otherwise the steps run in order
        (signed-in user, case-insensitive lookup, create when the lookup finds nothing,
        link row); the first that fails throws and keeps the list; when all succeed the
        trimmed entry is appended and the list sorted by name. `lookup` is the id the
        lookup finds, `create` the outcome of creating the skill, `link` the error the
        link insert reports. */
    method AddSkill(skillName: string, proficiency: Option<int>, user: Option<string>,
                    lookup: Option<int>, create: Result<int>, link: Option<string>,
                    le: (string, string) -> bool)
      returns (added: bool)
      requires IsCollation(le)
      modifies this
      ensures added <==>
        && !SomeNameMatches(old(userSkills), Trim(skillName))
        && user.Some? && (lookup.Some? || create.Ok?) && link.None?
      ensures added ==>
        var entry := Skill(Trim(skillName), if proficiency.Some? then proficiency.value else DefaultProficiency);
        && userSkills == SortByName(old(userSkills) + [entry], le)
        && |userSkills| == |old(userSkills)| + 1
        && multiset(userSkills) == multiset(old(userSkills)) + multiset{entry}
      ensures !added ==> userSkills == old(userSkills)
      ensures loadingSkills == old(loadingSkills)
    {
      var p := if proficiency.Some? then proficiency.value else DefaultProficiency;
      var trimmed := Trim(skillName);
      if SomeNameMatches(userSkills, trimmed) {
        return false;
      }
      if user.None? {
        return false;
      }
      if lookup.None? && create.Err? {
        return false;
      }
      if link.Some? {
        return false;
      }
      var newSkillList := userSkills + [Skill(trimmed, p)];
      userSkills := SortByName(newSkillList, le);
      assert |multiset(userSkills)| == |multiset(newSkillList)|;
      added := true;
    }
  }
}
