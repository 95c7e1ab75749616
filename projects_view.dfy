/**
 * The project list component: the projects fetched once on mount, shown
 * three to a page, with a page selector and an "add project" callback.
 */
module ProjectsView {
  import opened Wrappers
  import opened Schema
  import opened Client
  import opened Pagination
  import opened ProjectRoutes

  const ItemsPerPage: nat := 3

  /** `getProjectLink`: the first link's URL, or `'#'` for a project without links. */
  function ProjectLink(p: Project): (r: string)
    ensures |p.links| > 0 ==> r == p.links[0].url
    ensures |p.links| == 0 ==> r == "#"
  {
    if |p.links| > 0 then p.links[0].url else "#"
  }

  /** `getProjectSkills`: the linked skills' names, one per link, in link order. */
  function ProjectSkills(p: Project): (r: seq<string>)
    ensures |r| == |p.skills|
    ensures forall i :: 0 <= i < |r| ==> r[i] == p.skills[i].name
  {
    seq(|p.skills|, i requires 0 <= i < |p.skills| => p.skills[i].name)
  }

  /** A project made from a repository URL links to that URL. */
  lemma GithubProjectLinksToUrl(url: string, profileId: string, id: string, linkId: string)
    ensures ProjectLink(GithubProject(url, profileId, id, linkId)) == url
  {
  }

  /**
   * The server's skill filter keeps exactly the projects whose displayed
   * skill names include the query.
   */
  lemma FilterAgreesWithShownSkills(projects: seq<Project>, skill: string, p: Project)
    requires skill != ""
    ensures p in ListProjects(projects, skill, false) <==> p in projects && skill in ProjectSkills(p)
  {
    var names := ProjectSkills(p);
    if skill in names {
      var i :| 0 <= i < |names| && names[i] == skill;
      assert NameMatches(p.skills[i].name, skill, false);
    }
  }

  class ProjectsView {
    var projects: seq<Project>
    var currentPage: int
    var loading: bool
    var error: Option<string>

    /** The current page exists: it is 1 for an empty list and at most the last page otherwise. */
    ghost predicate Valid()
      reads this
    {
      currentPage == 1 || 1 < currentPage <= TotalPages(|projects|, ItemsPerPage)
    }

    /** Mounting: the first page, then the result of `GET /projects` or its error. */
    constructor (fetched: Outcome<seq<Project>>)
      ensures Valid() && !loading && currentPage == 1
      ensures fetched.Ok? ==> projects == fetched.value && error == None
      ensures fetched.Thrown? ==>
                projects == [] && error == Some(ErrorText(fetched.message, "Failed to fetch projects"))
    {
      currentPage := 1;
      loading := false;
      if fetched.Ok? {
        projects := fetched.value;
        error := None;
      } else {
        projects := [];
        error := Some(ErrorText(fetched.message, "Failed to fetch projects"));
      }
    }

    /** `totalPages`. */
    function PageCount(): (r: nat)
      reads this
      ensures r == 0 <==> projects == []
      ensures r > 1 <==> |projects| > ItemsPerPage
    {
      var r := TotalPages(|projects|, ItemsPerPage);
      assert r >= 2 ==> (r - 1) * ItemsPerPage >= ItemsPerPage;
      r
    }

    /** `totalPages > 1`: whether the page selector is drawn. */
    function ShowsPagination(): (r: bool)
      reads this
      ensures r <==> |projects| > ItemsPerPage
    {
      PageCount() > 1
    }

    /** `paginatedProjects`: up to three projects, never none while there are projects. */
    function Visible(): (r: seq<Project>)
      reads this
      requires Valid()
      ensures projects == [] ==> r == []
      ensures projects != [] ==> 1 <= |r| <= ItemsPerPage
      ensures projects != [] ==>
                var start := (currentPage - 1) * ItemsPerPage;
                start < |projects| && r == projects[start..Min(start + ItemsPerPage, |projects|)]
    {
      if projects != [] then
        PageContents(projects, currentPage, ItemsPerPage);
        Page(projects, currentPage, ItemsPerPage)
      else
        Page(projects, currentPage, ItemsPerPage)
    }

    /** `handlePageChange`: moves to `page` only when that page exists. */
    method HandlePageChange(page: int)
      requires Valid()
      modifies this
      ensures Valid()
      ensures 1 <= page <= old(PageCount()) ==> currentPage == page
      ensures !(1 <= page <= old(PageCount())) ==> currentPage == old(currentPage)
      ensures projects == old(projects) && loading == old(loading) && error == old(error)
    {
      if page >= 1 && page <= PageCount() {
        currentPage := page;
      }
    }

    /** `handleProjectAdded`: the new project goes last; the page stays. */
    method HandleProjectAdded(p: Project)
      requires Valid()
      modifies this
      ensures Valid()
      ensures projects == old(projects) + [p]
      ensures currentPage == old(currentPage) && loading == old(loading) && error == old(error)
    {
      var n := |projects|;
      TotalPagesMonotone(n, n + 1, ItemsPerPage);
      projects := projects + [p];
      assert |projects| == n + 1;
    }
  }
}
