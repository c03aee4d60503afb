/** The top-level application's skill state: the session, the sorted skill list and its
    loading flag, the fetch that fills the list when a session appears, and
    `addOrUpdateSkill`, which records a skill with its proficiency and then updates the
    list by exact name. */
module AppSkills {
  import opened Wrappers
  import opened SkillList

  /** `findIndex(s => s.name === name)`: the first entry with exactly that name. */
  function FirstIndexOfName(skills: seq<Skill>, name: string): (r: Option<nat>)
    ensures r.None? <==> forall i :: 0 <= i < |skills| ==> skills[i].name != name
    ensures r.Some? ==> r.value < |skills| && skills[r.value].name == name
    ensures r.Some? ==> forall j :: 0 <= j < r.value ==> skills[j].name != name
  {
    if skills == [] then None
    else if skills[0].name == name then Some(0)
    else
      match FirstIndexOfName(skills[1..], name)
      case None => None
      case Some(i) => Some(i + 1)
  }

  /** The `setUserSkills` updater of `addOrUpdateSkill`: the first entry named exactly
      `name` is replaced by the new record, or the record is appended; the list is then
      sorted by name. */
  function UpsertSkill(skills: seq<Skill>, name: string, proficiency: int,
                       le: (string, string) -> bool): (r: seq<Skill>)
    requires IsCollation(le)
    ensures Sorted(r, le)
    ensures Skill(name, proficiency) in multiset(r)
    ensures FirstIndexOfName(skills, name).Some? ==>
      var i := FirstIndexOfName(skills, name).value;
      && |r| == |skills|
      && multiset(r) == multiset(skills) - multiset{skills[i]} + multiset{Skill(name, proficiency)}
    ensures FirstIndexOfName(skills, name).None? ==>
      && |r| == |skills| + 1
      && multiset(r) == multiset(skills) + multiset{Skill(name, proficiency)}
  {
    var entry := Skill(name, proficiency);
    match FirstIndexOfName(skills, name)
    case Some(i) =>
      ReplaceCounts(skills, i, entry);
      SortByName(skills[i := entry], le)
    case None =>
      SortByName(skills + [entry], le)
  }

  /** Replacing one entry swaps one occurrence for another and keeps the length. */
  lemma ReplaceCounts(s: seq<Skill>, i: nat, x: Skill)
    requires i < |s|
    ensures multiset(s[i := x]) == multiset(s) - multiset{s[i]} + multiset{x}
  {
    assert s == s[..i] + [s[i]] + s[i + 1..];
    assert s[i := x] == s[..i] + [x] + s[i + 1..];
  }

  /** An entry other than the replaced one is kept with its proficiency: the update
      touches only entries named `name`. */
  lemma UpsertKeepsOthers(skills: seq<Skill>, name: string, proficiency: int,
                          le: (string, string) -> bool, other: Skill)
    requires IsCollation(le) && other.name != name
    ensures other in UpsertSkill(skills, name, proficiency, le) <==> other in skills
  {
    var r := UpsertSkill(skills, name, proficiency, le);
    assert other in r <==> other in multiset(r);
    assert other in skills <==> other in multiset(skills);
    if FirstIndexOfName(skills, name).Some? {
      var i := FirstIndexOfName(skills, name).value;
      assert skills[i] != other;
    }
  }

  /** Upserting into a sorted list a name whose first entry already has that proficiency
      gives back the list. */
  lemma UpsertSameIsIdentity(skills: seq<Skill>, name: string, proficiency: int,
                             le: (string, string) -> bool)
    requires IsCollation(le) && Sorted(skills, le)
    requires FirstIndexOfName(skills, name).Some?
    requires skills[FirstIndexOfName(skills, name).value].proficiency == proficiency
    ensures UpsertSkill(skills, name, proficiency, le) == skills
  {
    var i := FirstIndexOfName(skills, name).value;
    assert skills[i := Skill(name, proficiency)] == skills;
    SortOfSorted(skills, le);
  }

  class AppState {
    var session: Option<string>
    var userSkills: seq<Skill>
    var loadingSkills: bool

    /** The initial state: no session, no skills, loading. */
    constructor()
      ensures session == None && userSkills == [] && loadingSkills
    {
      session := None;
      userSkills := [];
      loadingSkills := true;
    }

    /** The effect that runs when the session changes. Without a session it only clears
        the loading flag; with one it fetches the user's rows and, when that yields a
        formatted list, puts it in place sorted by name. The flag is cleared in every case. */
    method LoadSkills(fetch: Fetch, le: (string, string) -> bool) returns (fetched: bool)
      requires IsCollation(le)
      modifies this
      ensures fetched <==> old(session).Some?
      ensures !loadingSkills && session == old(session)
      ensures userSkills ==
        if fetched && FetchedSkills(fetch, le).Some? then FetchedSkills(fetch, le).value
        else old(userSkills)
    {
      if session.None? {
        loadingSkills := false;
        return false;
      }
      fetched := true;
      loadingSkills := true;
      var result := FetchedSkills(fetch, le);
      if result.Some? {
        userSkills := result.value;
      }
      loadingSkills := false;
    }

    /** `addOrUpdateSkill`: look the skill up by exact name, create it when the lookup finds
        nothing, upsert the user's link row, and only then update the list. A failed create,
        a failed upsert, or a missing session (whose user id the upsert reads) throws and
        leaves the list as it was. `lookup` is the id the lookup finds, `create` the outcome
        of creating the skill, `upsert` the error the link upsert reports. */
    method AddOrUpdateSkill(skillName: string, proficiency: int, lookup: Option<int>,
                            create: Result<int>, upsert: Option<string>,
                            le: (string, string) -> bool)
      returns (updated: bool)
      requires IsCollation(le)
      modifies this
      ensures updated <==> (lookup.Some? || create.Ok?) && session.Some? && upsert.None?
      ensures userSkills ==
        if updated then UpsertSkill(old(userSkills), skillName, proficiency, le)
        else old(userSkills)
      ensures session == old(session) && loadingSkills == old(loadingSkills)
    {
      if lookup.None? && create.Err? {
        return false;
      }
      if session.None? || upsert.Some? {
        return false;
      }
      userSkills := UpsertSkill(userSkills, skillName, proficiency, le);
      updated := true;
    }
  }
}
