/** The user's skill list as both skill pages hold it: `{name, proficiency}` records built
    from the `user_skills` rows joined with `skills(name)`, kept sorted by name with
    `a.name.localeCompare(b.name)`. */
module SkillList {
  import opened Wrappers

  /** One entry of the local skill list. */
  datatype Skill = Skill(name: string, proficiency: int)

  /** One row of `user_skills` with its joined `skills(name)`; the join is `null` when the
      row has no skill behind it. */
  datatype SkillRow = SkillRow(proficiency: int, skill: Option<string>)

  /** What the `user_skills` query returns: `{error}`, or `{data}` where data may be null. */
  datatype Fetch = FetchFailed(message: string) | Fetched(data: Option<seq<SkillRow>>)

  /** `localeCompare` is taken as an abstract comparison `le(a, b)` ("a sorts no later than
      b"); a collation is a total preorder: any two names compare, and the order is
      transitive. Distinct names may compare equal. */
  ghost predicate IsCollation(le: (string, string) -> bool) {
    && (forall a, b :: le(a, b) || le(b, a))
    && (forall a, b, c :: le(a, b) && le(b, c) ==> le(a, c))
  }

  /** Every entry sorts no later than every entry after it. */
  predicate Sorted(s: seq<Skill>, le: (string, string) -> bool) {
    forall i, j :: 0 <= i < j < |s| ==> le(s[i].name, s[j].name)
  }

  /** Puts `x` just before the first entry it sorts no later than. */
  function Insert(x: Skill, s: seq<Skill>, le: (string, string) -> bool): (r: seq<Skill>)
    requires IsCollation(le) && Sorted(s, le)
    ensures Sorted(r, le)
    ensures multiset(r) == multiset(s) + multiset{x}
  {
    if s == [] then [x]
    else if le(x.name, s[0].name) then [x] + s
    else
      var rest := Insert(x, s[1..], le);
      assert s == [s[0]] + s[1..];
      HeadBoundsRest(s[0], x, s[1..], rest, le);
      [s[0]] + rest
  }

  /** An entry that sorts no later than every entry of a list and than `x` sorts no
      later than any rearrangement of the list with `x` added. */
  lemma HeadBoundsRest(head: Skill, x: Skill, tail: seq<Skill>, rest: seq<Skill>,
                       le: (string, string) -> bool)
    requires forall k :: 0 <= k < |tail| ==> le(head.name, tail[k].name)
    requires le(head.name, x.name)
    requires multiset(rest) == multiset(tail) + multiset{x}
    ensures forall k :: 0 <= k < |rest| ==> le(head.name, rest[k].name)
  {
    forall k | 0 <= k < |rest|
      ensures le(head.name, rest[k].name)
    {
      assert rest[k] in multiset(rest);
      if rest[k] != x {
        assert rest[k] in multiset(tail);
        var m :| 0 <= m < |tail| && tail[m] == rest[k];
      }
    }
  }

  /** `sort((a, b) => a.name.localeCompare(b.name))`: a stable sort, here by insertion,
      which keeps entries that compare equal in their original order. */
  function SortByName(s: seq<Skill>, le: (string, string) -> bool): (r: seq<Skill>)
    requires IsCollation(le)
    ensures Sorted(r, le)
    ensures multiset(r) == multiset(s)
  {
    if s == [] then []
    else
      assert s == [s[0]] + s[1..];
      Insert(s[0], SortByName(s[1..], le), le)
  }

  /** A list that is already sorted comes back unchanged: the sort moves nothing that is
      not out of order. */
  lemma {:induction false} SortOfSorted(s: seq<Skill>, le: (string, string) -> bool)
    requires IsCollation(le) && Sorted(s, le)
    ensures SortByName(s, le) == s
  {
    if s != [] {
      var head, tail := s[0], s[1..];
      assert s == [head] + tail;
      assert Sorted(tail, le);
      SortOfSorted(tail, le);
      assert SortByName(s, le) == Insert(head, tail, le);
      if tail != [] {
        assert le(head.name, tail[0].name);
      }
    }
  }

  /** The sorted list has the same length and the same entries as the input. */
  lemma SortKeepsEntries(s: seq<Skill>, le: (string, string) -> bool, x: Skill)
    requires IsCollation(le)
    ensures |SortByName(s, le)| == |s|
    ensures x in SortByName(s, le) <==> x in s
  {
    var r := SortByName(s, le);
    assert |r| == |multiset(r)| == |multiset(s)| == |s|;
    assert x in r <==> x in multiset(r);
  }

  /** `data.map(us => ({name: us.skills.name, proficiency: us.proficiency}))`; a row whose
      join is null makes the map throw a TypeError, here `None`. */
  function FormatRows(rows: seq<SkillRow>): (r: Option<seq<Skill>>)
    ensures r.Some? <==> forall i :: 0 <= i < |rows| ==> rows[i].skill.Some?
    ensures r.Some? ==> |r.value| == |rows|
    ensures r.Some? ==> forall i :: 0 <= i < |rows| ==>
      r.value[i] == Skill(rows[i].skill.value, rows[i].proficiency)
  {
    if rows == [] then Some([])
    else if rows[0].skill.None? then None
    else
      match FormatRows(rows[1..])
      case None => None
      case Some(rest) => Some([Skill(rows[0].skill.value, rows[0].proficiency)] + rest)
  }

  /** The list a fetch puts in place: the formatted rows sorted by name, or `None` when the
      query fails, returns no data, or a row cannot be formatted; then the list is kept. */
  function FetchedSkills(fetch: Fetch, le: (string, string) -> bool): (r: Option<seq<Skill>>)
    requires IsCollation(le)
    ensures r.Some? <==> fetch.Fetched? && fetch.data.Some? && FormatRows(fetch.data.value).Some?
    ensures r.Some? ==> Sorted(r.value, le) && |r.value| == |fetch.data.value|
    ensures r.Some? ==> multiset(r.value) == multiset(FormatRows(fetch.data.value).value)
  {
    match fetch
    case FetchFailed(_) => None
    case Fetched(None) => None
    case Fetched(Some(rows)) =>
      match FormatRows(rows)
      case None => None
      case Some(skills) =>
        SortKeepsEntries(skills, le, Skill([], 0));
        Some(SortByName(skills, le))
  }
}
