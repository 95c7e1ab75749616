/**
 * The project routes: `GET /projects` with its optional skill filter,
 * `POST /projects` and `POST /projects/from-github`. Request fields are
 * strings, an absent field read as the empty string; `storeFails` says the
 * database call throws (a foreign-key violation on `profileId` included).
 */
module ProjectRoutes {
  import opened Wrappers
  import opened Sequences
  import opened Text
  import opened Schema
  import opened Store

  // ---------------------------------------------------------------------
  // GET /projects?skill=...
  // ---------------------------------------------------------------------

  /**
   * How a linked skill's name is compared with the query: `equals`, or, as
   * in the compiled copy of this route, `equals` with `mode: "insensitive"`.
   */
  predicate NameMatches(name: string, query: string, insensitive: bool)
  {
    if insensitive then Lower(name) == Lower(query) else name == query
  }

  /** `skills: { some: { skill: { name: { equals: query } } } }`. */
  predicate HasSkill(p: Project, query: string, insensitive: bool)
  {
    exists i :: 0 <= i < |p.skills| && NameMatches(p.skills[i].name, query, insensitive)
  }

  /** The projects that have a matching skill, in table order. */
  function WithSkill(projects: seq<Project>, query: string, insensitive: bool): (r: seq<Project>)
    ensures forall p :: p in r <==> p in projects && HasSkill(p, query, insensitive)
    ensures IsSubsequence(r, projects)
  {
    if projects == [] then []
    else
      var rest := WithSkill(projects[1..], query, insensitive);
      assert forall p :: p in projects <==> p == projects[0] || p in projects[1..];
      if HasSkill(projects[0], query, insensitive) then [projects[0]] + rest else rest
  }

  /**
   * The `where` clause of `GET /projects`: no filter when the `skill`
   * query is absent or empty, otherwise the projects linked to a skill of
   * that name.
   */
  function ListProjects(projects: seq<Project>, skill: string, insensitive: bool): (r: seq<Project>)
    ensures skill == "" ==> r == projects
    ensures skill != "" ==> forall p :: p in r <==> p in projects && HasSkill(p, skill, insensitive)
    ensures IsSubsequence(r, projects)
  {
    if skill == "" then
      SubsequenceReflexive(projects);
      projects
    else WithSkill(projects, skill, insensitive)
  }

  /** `GET /projects`: the (case-sensitive) listing, or a 500 when the query fails. */
  function GetProjects(projects: seq<Project>, skill: string, storeFails: bool): (res: Response)
    ensures storeFails ==> res == Response(500, Failure("Failed to fetch projects"))
    ensures !storeFails ==> res.status == 200 && res.body.ProjectList?
    ensures !storeFails ==> forall p :: p in res.body.projects <==>
                              p in projects && (skill == "" || HasSkill(p, skill, false))
  {
    if storeFails then Response(500, Failure("Failed to fetch projects"))
    else Response(200, ProjectList(ListProjects(projects, skill, false)))
  }

  /** Under the insensitive comparison, queries that differ only in case select the same projects. */
  lemma {:induction false} InsensitiveIgnoresQueryCase(projects: seq<Project>, q1: string, q2: string)
    requires Lower(q1) == Lower(q2)
    ensures ListProjects(projects, q1, true) == ListProjects(projects, q2, true)
  {
    assert |q1| == |Lower(q1)| == |Lower(q2)| == |q2|;
    if q1 != "" {
      WithSkillIgnoresQueryCase(projects, q1, q2);
    }
  }

  lemma {:induction false} WithSkillIgnoresQueryCase(projects: seq<Project>, q1: string, q2: string)
    requires Lower(q1) == Lower(q2)
    ensures WithSkill(projects, q1, true) == WithSkill(projects, q2, true)
  {
    if projects != [] {
      WithSkillIgnoresQueryCase(projects[1..], q1, q2);
      assert HasSkill(projects[0], q1, true) == HasSkill(projects[0], q2, true);
    }
  }

  // ---------------------------------------------------------------------
  // POST /projects
  // ---------------------------------------------------------------------

  const MissingProjectFields := Response(400, Failure("Title and profileId are required"))
  const CreateFailed := Response(500, Failure("Failed to create project"))

  /**
   * `POST /projects`: `title` and `profileId` are required; `description`
   * defaults to the empty string and `work` to `"Personal Project"`. The
   * new project has no skills and no links yet.
   */
  method CreateProject(db: ProjectTable, title: string, description: string, work: string,
                       profileId: string, newId: string, storeFails: bool) returns (res: Response)
    modifies db
    ensures title == "" || profileId == "" ==> res == MissingProjectFields && unchanged(db)
    ensures title != "" && profileId != "" && storeFails ==> res == CreateFailed && unchanged(db)
    ensures title != "" && profileId != "" && !storeFails ==>
              var p := Project(newId, title, Or(description, ""), Or(work, "Personal Project"), profileId, [], []);
              db.projects == old(db.projects) + [p] && res == Response(200, ProjectJson(p))
  {
    if title == "" || profileId == "" {
      return MissingProjectFields;
    }
    if storeFails {
      return CreateFailed;
    }
    var project := Project(newId, title, Or(description, ""), Or(work, "Personal Project"), profileId, [], []);
    db.Create(project);
    res := Response(200, ProjectJson(project));
  }

  // ---------------------------------------------------------------------
  // POST /projects/from-github
  // ---------------------------------------------------------------------

  /** Owner and repository name read off a URL; the owner is missing when the URL has no `/`. */
  datatype GithubRepo = GithubRepo(owner: Option<string>, repo: string)

  /**
   * `urlParts = githubUrl.split("/")`: the repository is the last part with
   * its first `.git` removed, the owner the part before it.
   */
  function ParseGithubUrl(url: string): (g: GithubRepo)
    ensures g.owner.None? <==> '/' !in url
    ensures g.owner.Some? ==> '/' !in g.owner.value
  {
    var parts := Split(url, '/');
    CountCharZero(url, '/');
    GithubRepo(if |parts| >= 2 then Some(parts[|parts| - 2]) else None,
               ReplaceFirst(parts[|parts| - 1], ".git", ""))
  }

  /** A template literal shows a missing owner as `undefined`. */
  function OwnerText(owner: Option<string>): string
  {
    owner.GetOr("undefined")
  }

  /** The project `POST /projects/from-github` creates for a URL. */
  function GithubProject(url: string, profileId: string, id: string, linkId: string): Project
  {
    var g := ParseGithubUrl(url);
    Project(id, g.repo, "GitHub project: " + OwnerText(g.owner) + "/" + g.repo, "Open Source",
            profileId, [], [Link(linkId, "github", url)])
  }

  /** The last two `/`-separated parts of a URL are read as owner and repository. */
  lemma {:induction false} ParseLastTwo(head: string, owner: string, last: string)
    requires '/' !in owner && '/' !in last
    ensures ParseGithubUrl(head + "/" + owner + "/" + last) == GithubRepo(Some(owner), ReplaceFirst(last, ".git", ""))
  {
    var h := head + ['/'] + owner;
    assert head + "/" + owner + "/" + last == h + ['/'] + last;
    SplitWithoutSeparator(owner, '/');
    SplitWithoutSeparator(last, '/');
    SplitConcat(head, owner, '/');
    SplitConcat(h, last, '/');
    var parts := Split(h + ['/'] + last, '/');
    assert parts == Split(head, '/') + [owner] + [last];
    assert parts[|parts| - 1] == last && parts[|parts| - 2] == owner;
  }

  /** For `<anything>/<owner>/<name>` or `<anything>/<owner>/<name>.git` the parse gives owner and name. */
  lemma ParseRepositoryUrl(prefix: string, owner: string, name: string)
    requires '/' !in owner && '/' !in name && !Contains(name, ".git")
    ensures ParseGithubUrl(prefix + "/" + owner + "/" + name) == GithubRepo(Some(owner), name)
    ensures ParseGithubUrl(prefix + "/" + owner + "/" + name + ".git") == GithubRepo(Some(owner), name)
  {
    assert ParseGithubUrl(prefix + "/" + owner + "/" + name) == GithubRepo(Some(owner), name) by {
      ParseLastTwo(prefix, owner, name);
    }
    var withGit := name + ".git";
    assert '/' !in withGit;
    assert prefix + "/" + owner + "/" + name + ".git" == prefix + "/" + owner + "/" + withGit;
    ParseLastTwo(prefix, owner, withGit);
    StripGitSuffix(name);
  }

  /** A trailing `/` leaves an empty last part, so the repository name is empty. */
  lemma TrailingSlashEmptiesRepo(url: string)
    ensures ParseGithubUrl(url + "/").repo == ""
  {
    SplitConcat(url, "", '/');
    assert url + "/" == url + ['/'] + "";
    assert !Contains("", ".git");
  }

  /** The created project for a repository URL: titled by the name, described by owner and name. */
  lemma GithubProjectFromRepositoryUrl(prefix: string, owner: string, name: string, profileId: string,
                                       id: string, linkId: string)
    requires '/' !in owner && '/' !in name && !Contains(name, ".git")
    ensures var url := prefix + "/" + owner + "/" + name + ".git";
            var p := GithubProject(url, profileId, id, linkId);
            && p.title == name
            && p.description == "GitHub project: " + owner + "/" + name
            && p.work == "Open Source"
            && p.links == [Link(linkId, "github", url)]
  {
    ParseRepositoryUrl(prefix, owner, name);
  }

  const MissingGithubFields := Response(400, Failure("GitHub URL and profileId are required"))
  const GithubCreateFailed := Response(500, Failure("Failed to create project from GitHub"))

  /**
   * `POST /projects/from-github`: both fields required; the project is
   * built from the URL, with one `github` link to it.
   */
  method CreateFromGithub(db: ProjectTable, githubUrl: string, profileId: string, newId: string,
                          linkId: string, storeFails: bool) returns (res: Response)
    modifies db
    ensures githubUrl == "" || profileId == "" ==> res == MissingGithubFields && unchanged(db)
    ensures githubUrl != "" && profileId != "" && storeFails ==> res == GithubCreateFailed && unchanged(db)
    ensures githubUrl != "" && profileId != "" && !storeFails ==>
              var p := GithubProject(githubUrl, profileId, newId, linkId);
              db.projects == old(db.projects) + [p] && res == Response(200, ProjectJson(p))
  {
    if githubUrl == "" || profileId == "" {
      return MissingGithubFields;
    }
    if storeFails {
      return GithubCreateFailed;
    }
    var project := GithubProject(githubUrl, profileId, newId, linkId);
    db.Create(project);
    res := Response(200, ProjectJson(project));
  }
}
