/**
 * The top-skills component: the groups of `GET /skills/top`, ten to a
 * page, with previous/next buttons.
 */
module TopSkillsView {
  import opened Wrappers
  import opened Schema
  import opened Client
  import opened Pagination
  import opened SkillRoutes

  const ItemsPerPage: nat := 10

  /**
   * A skill as the client reads it: the group count arrives as `_count`
   * (here `groupCount`), a plain `count` is also accepted; either may be
   * missing.
   */
  datatype SkillEntry = SkillEntry(name: string, groupCount: Option<int>, count: Option<int>)

  /** `skill._count || skill.count || 0`: the first of the two that is present and non-zero. */
  function DisplayedCount(e: SkillEntry): (r: int)
    ensures e.groupCount.Some? && e.groupCount.value != 0 ==> r == e.groupCount.value
    ensures (e.groupCount.None? || e.groupCount.value == 0) && e.count.Some? && e.count.value != 0 ==>
              r == e.count.value
    ensures r == 0 <==> (e.groupCount.None? || e.groupCount.value == 0) && (e.count.None? || e.count.value == 0)
  {
    if e.groupCount.Some? && e.groupCount.value != 0 then e.groupCount.value
    else if e.count.Some? && e.count.value != 0 then e.count.value
    else 0
  }

  /** The JSON of one `/top` group, `{name, _count}`. */
  function FromGroup(g: NameCount): SkillEntry
  {
    SkillEntry(g.name, Some(g.count), None)
  }

  /** For the groups the server sends, the number shown is the number of rows with that name. */
  lemma ShownCountIsOccurrences(skills: seq<SkillRecord>)
    ensures var top := Top(skills);
            forall i :: 0 <= i < |top| ==>
              DisplayedCount(FromGroup(top[i])) == Occurrences(skills, top[i].name)
  {
    TopCountsPositive(skills);
  }

  class TopSkillsView {
    var skills: seq<SkillEntry>
    var currentPage: int
    var loading: bool
    var error: Option<string>

    /** The current page exists: it is 1 for an empty list and at most the last page otherwise. */
    ghost predicate Valid()
      reads this
    {
      currentPage == 1 || 1 < currentPage <= TotalPages(|skills|, ItemsPerPage)
    }

    /** Mounting: the groups of `GET /skills/top` and a reset to page 1, or the error. */
    constructor (fetched: Outcome<seq<SkillEntry>>)
      ensures Valid() && !loading && currentPage == 1
      ensures fetched.Ok? ==> skills == fetched.value && error == None
      ensures fetched.Thrown? ==>
                skills == [] && error == Some(ErrorText(fetched.message, "Failed to fetch skills"))
    {
      currentPage := 1;
      loading := false;
      if fetched.Ok? {
        skills := fetched.value;
        error := None;
      } else {
        skills := [];
        error := Some(ErrorText(fetched.message, "Failed to fetch skills"));
      }
    }

    /** `totalPages`. */
    function PageCount(): (r: nat)
      reads this
      ensures r == 0 <==> skills == []
      ensures r > 1 <==> |skills| > ItemsPerPage
    {
      var r := TotalPages(|skills|, ItemsPerPage);
      assert r >= 2 ==> (r - 1) * ItemsPerPage >= ItemsPerPage;
      r
    }

    /** `paginatedSkills`: up to ten groups, never none while there are groups. */
    function Visible(): (r: seq<SkillEntry>)
      reads this
      requires Valid()
      ensures skills == [] ==> r == []
      ensures skills != [] ==> 1 <= |r| <= ItemsPerPage
      ensures skills != [] ==>
                var start := (currentPage - 1) * ItemsPerPage;
                start < |skills| && r == skills[start..Min(start + ItemsPerPage, |skills|)]
    {
      if skills != [] then
        PageContents(skills, currentPage, ItemsPerPage);
        Page(skills, currentPage, ItemsPerPage)
      else
        Page(skills, currentPage, ItemsPerPage)
    }

    /** `goToNextPage`: one page on, unless this is the last page. */
    method GoToNextPage()
      requires Valid()
      modifies this
      ensures Valid()
      ensures old(currentPage) < PageCount() ==> currentPage == old(currentPage) + 1
      ensures old(currentPage) >= PageCount() ==> currentPage == old(currentPage)
      ensures skills == old(skills) && loading == old(loading) && error == old(error)
    {
      if currentPage < PageCount() {
        currentPage := currentPage + 1;
      }
    }

    /** `goToPreviousPage`: one page back, unless this is the first page. */
    method GoToPreviousPage()
      requires Valid()
      modifies this
      ensures Valid()
      ensures old(currentPage) > 1 ==> currentPage == old(currentPage) - 1
      ensures old(currentPage) <= 1 ==> currentPage == old(currentPage)
      ensures skills == old(skills) && loading == old(loading) && error == old(error)
    {
      if currentPage > 1 {
        currentPage := currentPage - 1;
      }
    }

    /** Next then previous comes back to the page it started on, when there was a next page. */
    method NextThenPrevious()
      requires Valid() && currentPage < PageCount()
      modifies this
      ensures Valid() && currentPage == old(currentPage)
      ensures skills == old(skills)
    {
      GoToNextPage();
      GoToPreviousPage();
    }
  }
}
