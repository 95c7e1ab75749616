/**
 * The demo data shipped with the client and its skill search: a project
 * matches when one of its skills contains the query, ignoring case.
 */
module MockData {
  import opened Sequences
  import opened Text
  import opened Wrappers
  import opened TopSkillsView

  /** A demo project: its skills are plain names. */
  datatype MockProject = MockProject(id: string, title: string, description: string, link: string,
                                     skills: seq<string>)

  const MockProjects: seq<MockProject> := [
    MockProject("1", "Task Manager App", "A full-stack task management application with real-time updates.",
                "https://github.com/alexchen/task-manager", ["React", "Node.js", "PostgreSQL"]),
    MockProject("2", "Weather Dashboard", "Real-time weather dashboard with location-based forecasts.",
                "https://github.com/alexchen/weather-app", ["React", "TypeScript", "API Integration"]),
    MockProject("3", "E-commerce API", "RESTful API for an e-commerce platform with authentication.",
                "https://github.com/alexchen/ecommerce-api", ["Node.js", "Express", "MongoDB"]),
    MockProject("4", "ML Image Classifier", "Machine learning model for image classification using TensorFlow.",
                "https://github.com/alexchen/ml-classifier", ["Python", "TensorFlow", "Docker"])
  ]

  /** The demo leaderboard, with its counts in the plain `count` field. */
  const MockTopSkills: seq<SkillEntry> := [
    SkillEntry("React", None, Some(3)),
    SkillEntry("TypeScript", None, Some(2)),
    SkillEntry("Node.js", None, Some(2)),
    SkillEntry("Python", None, Some(1)),
    SkillEntry("PostgreSQL", None, Some(1))
  ]

  /** The demo leaderboard is ordered by the count it shows, largest first. */
  lemma MockTopSkillsOrdered()
    ensures forall i, j :: 0 <= i < j < |MockTopSkills| ==>
              DisplayedCount(MockTopSkills[i]) >= DisplayedCount(MockTopSkills[j])
  {
  }

  /** `s.toLowerCase().includes(skill.toLowerCase())` for some skill `s` of the project. */
  predicate SkillMatches(p: MockProject, query: string)
  {
    exists i :: 0 <= i < |p.skills| && Contains(Lower(p.skills[i]), Lower(query))
  }

  /** `projects.filter(project => project.skills.some(...))`. */
  function FilterBySkill(projects: seq<MockProject>, query: string): (r: seq<MockProject>)
    ensures forall p :: p in r <==> p in projects && SkillMatches(p, query)
    ensures IsSubsequence(r, projects)
  {
    if projects == [] then []
    else
      var rest := FilterBySkill(projects[1..], query);
      assert forall p :: p in projects <==> p == projects[0] || p in projects[1..];
      if SkillMatches(projects[0], query) then [projects[0]] + rest else rest
  }

  /** `filterProjectsBySkill`: the search over the demo projects. */
  function FilterProjectsBySkill(query: string): (r: seq<MockProject>)
    ensures forall p :: p in r <==> p in MockProjects && SkillMatches(p, query)
    ensures IsSubsequence(r, MockProjects)
  {
    FilterBySkill(MockProjects, query)
  }

  /** The empty query keeps every project that has at least one skill. */
  lemma EmptyQueryKeepsProjectsWithSkills(projects: seq<MockProject>)
    ensures forall p :: p in FilterBySkill(projects, "") <==> p in projects && |p.skills| > 0
  {
    forall p | p in projects && |p.skills| > 0 ensures SkillMatches(p, "") {
      ContainsEmpty(Lower(p.skills[0]));
    }
  }

  /** The query's case does not matter. */
  lemma {:induction false} QueryCaseIgnored(projects: seq<MockProject>, query: string)
    ensures FilterBySkill(projects, query) == FilterBySkill(projects, Lower(query))
  {
    if projects != [] {
      QueryCaseIgnored(projects[1..], query);
      LowerIdempotent(query);
      assert SkillMatches(projects[0], query) == SkillMatches(projects[0], Lower(query));
    }
  }

  /** A longer query finds no more: if `q1` occurs in `q2`, whatever `q2` finds, `q1` finds too. */
  lemma NarrowerQueryFindsFewer(projects: seq<MockProject>, q1: string, q2: string)
    requires Contains(q2, q1)
    ensures forall p :: p in FilterBySkill(projects, q2) ==> p in FilterBySkill(projects, q1)
  {
    LowerKeepsContains(q2, q1);
    forall p | p in FilterBySkill(projects, q2) ensures SkillMatches(p, q1) {
      var i :| 0 <= i < |p.skills| && Contains(Lower(p.skills[i]), Lower(q2));
      ContainsTransitive(Lower(p.skills[i]), Lower(q2), Lower(q1));
    }
  }
}
