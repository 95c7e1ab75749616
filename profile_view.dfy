/**
 * The profile component: the profile fetched on mount, a copy of it that
 * the edit form changes field by field, and save/cancel. The skills field
 * is edited as one comma-separated line of text.
 */
module ProfileView {
  import opened Wrappers
  import opened Sequences
  import opened Text
  import opened Client

  /** The profile's external links. */
  datatype ProfileLinks = ProfileLinks(github: string, linkedin: string, portfolio: string)

  /** The profile as the client holds it (education and work history are only displayed). */
  datatype ProfileCard = ProfileCard(name: string, email: string, skills: seq<string>, links: ProfileLinks)

  datatype LinkKind = Github | Linkedin | Portfolio

  /** One change made in the edit form. */
  datatype Edit =
    | SetName(name: string)
    | SetEmail(email: string)
    | SetSkills(skills: seq<string>)
    | SetLink(kind: LinkKind, url: string)

  /** `{ ...p, [field]: value }`: the edited field takes the new value, every other field stays. */
  function ApplyEdit(p: ProfileCard, e: Edit): (r: ProfileCard)
    ensures e.SetName? ==> r == p.(name := e.name)
    ensures e.SetEmail? ==> r == p.(email := e.email)
    ensures e.SetSkills? ==> r == p.(skills := e.skills)
    ensures e.SetLink? ==> r.name == p.name && r.email == p.email && r.skills == p.skills
    ensures e.SetLink? && e.kind == Github ==> r.links == p.links.(github := e.url)
    ensures e.SetLink? && e.kind == Linkedin ==> r.links == p.links.(linkedin := e.url)
    ensures e.SetLink? && e.kind == Portfolio ==> r.links == p.links.(portfolio := e.url)
  {
    match e
    case SetName(n) => p.(name := n)
    case SetEmail(m) => p.(email := m)
    case SetSkills(s) => p.(skills := s)
    case SetLink(Github, u) => p.(links := p.links.(github := u))
    case SetLink(Linkedin, u) => p.(links := p.links.(linkedin := u))
    case SetLink(Portfolio, u) => p.(links := p.links.(portfolio := u))
  }

  /** Setting a field to the value it already has changes nothing. */
  lemma ApplyEditIdempotent(p: ProfileCard, e: Edit)
    ensures ApplyEdit(ApplyEdit(p, e), e) == ApplyEdit(p, e)
  {
  }

  // ---------------------------------------------------------------------
  // The skills line
  // ---------------------------------------------------------------------

  /** `.map(s => s.trim())`. */
  function TrimEach(parts: seq<string>): (r: seq<string>)
    ensures |r| == |parts|
    ensures forall i :: 0 <= i < |r| ==> r[i] == Trim(parts[i])
  {
    seq(|parts|, i requires 0 <= i < |parts| => Trim(parts[i]))
  }

  /** `.filter(s => s)`: every non-empty string, as often as it occurs, in order. */
  function DropEmpty(xs: seq<string>): (r: seq<string>)
    ensures forall s :: s in r <==> s in xs && s != ""
    ensures multiset(r) == multiset(xs)["" := 0]
    ensures IsSubsequence(r, xs)
  {
    if xs == [] then []
    else
      var rest := DropEmpty(xs[1..]);
      assert forall s :: s in xs <==> s == xs[0] || s in xs[1..];
      DropEmptyStep(xs, rest);
      if xs[0] != "" then [xs[0]] + rest else rest
  }

  /** Keeping or dropping the first string of `xs` in front of the filtered rest. */
  lemma DropEmptyStep(xs: seq<string>, rest: seq<string>)
    requires xs != [] && multiset(rest) == multiset(xs[1..])["" := 0]
    ensures xs[0] != "" ==> multiset([xs[0]] + rest) == multiset(xs)["" := 0]
    ensures xs[0] == "" ==> multiset(rest) == multiset(xs)["" := 0]
  {
    assert xs == [xs[0]] + xs[1..];
  }

  /** A string without `c` has no `c` after trimming either. */
  lemma TrimKeepsOut(s: string, c: char)
    requires c !in s
    ensures c !in Trim(s)
  {
    var i :| CutAt(s, i, Trim(s));
  }

  /**
   * `updateSkills`: split the line on commas, trim each piece and drop the
   * empty ones. The skills are exactly the non-empty trimmed pieces, each
   * as often as it occurs and in the order of the line; so every skill is
   * non-empty, has no surrounding white space and no comma.
   */
  function ParseSkills(line: string): (r: seq<string>)
    ensures forall i :: 0 <= i < |r| ==> r[i] != "" && IsTrimmed(r[i]) && ',' !in r[i]
    ensures multiset(r) == multiset(TrimEach(Split(line, ',')))["" := 0]
    ensures IsSubsequence(r, TrimEach(Split(line, ',')))
  {
    var parts := Split(line, ',');
    var trimmed := TrimEach(parts);
    TrimmedPieces(parts);
    var r := DropEmpty(trimmed);
    assert forall i :: 0 <= i < |r| ==> r[i] in r;
    r
  }

  /** Trimmed pieces of a comma-free split have no surrounding white space and no comma. */
  lemma TrimmedPieces(parts: seq<string>)
    requires forall i :: 0 <= i < |parts| ==> ',' !in parts[i]
    ensures forall s :: s in TrimEach(parts) ==> IsTrimmed(s) && ',' !in s
  {
    var trimmed := TrimEach(parts);
    forall s | s in trimmed ensures IsTrimmed(s) && ',' !in s {
      var i :| 0 <= i < |trimmed| && trimmed[i] == s;
      TrimKeepsOut(parts[i], ',');
    }
  }

  /** `", "` in front of every item but the first, as `join(', ')` lays them out after a split on `,`. */
  function Spaced(xs: seq<string>): (r: seq<string>)
    ensures |r| == |xs|
    ensures forall i :: 0 <= i < |r| ==> r[i] == " " + xs[i]
  {
    seq(|xs|, i requires 0 <= i < |xs| => " " + xs[i])
  }

  /** Splitting `skills.join(', ')` on `,` gives the first skill, then each other one after a space. */
  lemma {:induction false} SplitJoinedSkills(skills: seq<string>)
    requires |skills| >= 1
    requires forall i :: 0 <= i < |skills| ==> ',' !in skills[i]
    ensures Split(Join(skills, ", "), ',') == [skills[0]] + Spaced(skills[1..])
  {
    if |skills| == 1 {
      SplitWithoutSeparator(skills[0], ',');
    } else {
      SplitJoinedSkills(skills[1..]);
      assert skills == [skills[0]] + skills[1..];
      JoinedSkillsStep(skills[0], skills[1..]);
    }
  }

  /** The inductive step of `SplitJoinedSkills`: one more skill in front of the line. */
  lemma JoinedSkillsStep(first: string, rest: seq<string>)
    requires rest != [] && ',' !in first
    requires Split(Join(rest, ", "), ',') == [rest[0]] + Spaced(rest[1..])
    ensures Split(Join([first] + rest, ", "), ',') == [first] + Spaced(rest)
  {
    var j := Join(rest, ", ");
    JoinCons(first, rest);
    SplitAtSeparator(first, " " + j, ',');
    SplitAfterSpace(j, rest);
  }

  /** Joining one more item in front puts it, a comma and a space before the rest. */
  lemma JoinCons(first: string, rest: seq<string>)
    requires rest != []
    ensures Join([first] + rest, ", ") == first + [','] + (" " + Join(rest, ", "))
  {
    assert ([first] + rest)[1..] == rest;
  }

  /** The space after a comma sticks to the piece that follows it. */
  lemma SplitAfterSpace(j: string, rest: seq<string>)
    requires rest != []
    requires Split(j, ',') == [rest[0]] + Spaced(rest[1..])
    ensures Split(" " + j, ',') == Spaced(rest)
  {
    assert ',' !in " ";
    SplitPrefix(" ", j, ',');
    SpacedCons(rest);
  }

  lemma SpacedCons(xs: seq<string>)
    requires xs != []
    ensures [" " + xs[0]] + Spaced(xs[1..]) == Spaced(xs)
  {
  }

  /** Keeping the non-empty strings of a list with no empty string keeps them all. */
  lemma {:induction false} DropEmptyKeepsNonEmpty(xs: seq<string>)
    requires forall i :: 0 <= i < |xs| ==> xs[i] != ""
    ensures DropEmpty(xs) == xs
  {
    if xs != [] {
      DropEmptyKeepsNonEmpty(xs[1..]);
      assert [xs[0]] + xs[1..] == xs;
    }
  }

  /**
   * The skills line round-trips: the form shows `skills.join(', ')`, and
   * reading that line back gives the same skills, as long as each is
   * non-empty, trimmed and free of commas.
   */
  lemma ParseSkillsRoundTrip(skills: seq<string>)
    requires forall i :: 0 <= i < |skills| ==> skills[i] != "" && IsTrimmed(skills[i]) && ',' !in skills[i]
    ensures ParseSkills(Join(skills, ", ")) == skills
  {
    if skills == [] {
      CommaFreeLine("");
      TrimTrimmed("");
    } else {
      SplitJoinedSkills(skills);
      TrimJoinedParts(skills);
      DropEmptyKeepsNonEmpty(skills);
    }
  }

  /** A line without a comma holds one skill, the trimmed line, or none when that is empty. */
  lemma CommaFreeLine(line: string)
    requires ',' !in line
    ensures ParseSkills(line) == if Trim(line) == "" then [] else [Trim(line)]
  {
    SplitWithoutSeparator(line, ',');
    assert TrimEach([line]) == [Trim(line)];
    var t := Trim(line);
    assert DropEmpty([t]) == if t == "" then [] else [t] by {
      assert [t][1..] == [];
    }
  }

  /** Trimming the pieces of the split line gives the skills back. */
  lemma TrimJoinedParts(skills: seq<string>)
    requires |skills| >= 1
    requires forall i :: 0 <= i < |skills| ==> IsTrimmed(skills[i])
    ensures TrimEach([skills[0]] + Spaced(skills[1..])) == skills
  {
    var parts := [skills[0]] + Spaced(skills[1..]);
    forall i | 0 <= i < |skills| ensures Trim(parts[i]) == skills[i] {
      TrimJoinedPart(skills, i);
    }
  }

  /** One piece of the split line: the first skill as it is, any other after a space. */
  lemma TrimJoinedPart(skills: seq<string>, i: int)
    requires 0 <= i < |skills|
    requires IsTrimmed(skills[i])
    ensures Trim(([skills[0]] + Spaced(skills[1..]))[i]) == skills[i]
  {
    if i == 0 {
      TrimTrimmed(skills[0]);
    } else {
      assert ([skills[0]] + Spaced(skills[1..]))[i] == " " + skills[i];
      TrimSpaced(skills[i]);
    }
  }

  lemma TrimSpaced(s: string)
    requires IsTrimmed(s)
    ensures Trim(" " + s) == s
  {
    TrimLeadingSpace(s);
    TrimTrimmed(s);
  }

  // ---------------------------------------------------------------------
  // The component
  // ---------------------------------------------------------------------

  /** How `POST /profile` ended: an HTTP answer, ok or not, or a thrown error. */
  datatype SaveReply = Answered(ok: bool, data: ProfileCard) | NetworkFailure(message: Option<string>)

  class ProfileView {
    var profile: Option<ProfileCard>
    var editedProfile: Option<ProfileCard>
    var isEditing: bool
    var loading: bool
    var error: Option<string>

    /**
     * Mounting: `GET /profile`. On success the shown profile and the
     * edited copy are the same value (possibly none); on failure the
     * error is kept.
     */
    constructor (fetched: Outcome<Option<ProfileCard>>)
      ensures !loading && !isEditing
      ensures fetched.Ok? ==> profile == fetched.value && editedProfile == profile && error == None
      ensures fetched.Thrown? ==>
                profile == None && editedProfile == None
                && error == Some(ErrorText(fetched.message, "Failed to fetch profile"))
    {
      isEditing := false;
      loading := false;
      if fetched.Ok? {
        profile := fetched.value;
        editedProfile := fetched.value;
        error := None;
      } else {
        profile := None;
        editedProfile := None;
        error := Some(ErrorText(fetched.message, "Failed to fetch profile"));
      }
    }

    /** `handleEditClick`: signed out it sends the visitor to `/auth` and changes nothing else. */
    method HandleEditClick(isAuthenticated: bool) returns (navigateTo: Option<string>)
      modifies this
      ensures !isAuthenticated ==> navigateTo == Some("/auth") && unchanged(this)
      ensures isAuthenticated ==> navigateTo == None && isEditing
      ensures isAuthenticated ==>
                profile == old(profile) && editedProfile == old(editedProfile)
                && loading == old(loading) && error == old(error)
    {
      if !isAuthenticated {
        return Some("/auth");
      }
      isEditing := true;
      navigateTo := None;
    }

    /** `updateField` and the link inputs: change the edited copy, if there is one. */
    method UpdateField(e: Edit)
      modifies this
      ensures old(editedProfile).None? ==> unchanged(this)
      ensures old(editedProfile).Some? ==> editedProfile == Some(ApplyEdit(old(editedProfile).value, e))
      ensures profile == old(profile) && isEditing == old(isEditing)
      ensures loading == old(loading) && error == old(error)
    {
      if editedProfile.Some? {
        editedProfile := Some(ApplyEdit(editedProfile.value, e));
      }
    }

    /** `updateSkills`: the parsed skills line replaces the edited copy's skills. */
    method UpdateSkills(line: string)
      modifies this
      ensures old(editedProfile).None? ==> unchanged(this)
      ensures old(editedProfile).Some? ==>
                editedProfile == Some(old(editedProfile).value.(skills := ParseSkills(line)))
      ensures profile == old(profile) && isEditing == old(isEditing)
      ensures loading == old(loading) && error == old(error)
    {
      UpdateField(SetSkills(ParseSkills(line)));
    }

    /** `handleCancel`: the edits are dropped and the form closes. */
    method HandleCancel()
      modifies this
      ensures editedProfile == profile && !isEditing
      ensures profile == old(profile) && loading == old(loading) && error == old(error)
    {
      editedProfile := profile;
      isEditing := false;
    }

    /**
     * `handleSave`: posts the edited copy (returned as `sent`). On a
     * successful answer the shown profile becomes the answer and the form
     * closes; otherwise the error is set and the form stays open.
     */
    method HandleSave(reply: SaveReply) returns (sent: Option<ProfileCard>)
      modifies this
      ensures sent == old(editedProfile)
      ensures old(editedProfile).None? ==> unchanged(this)
      ensures old(editedProfile).Some? ==> !loading && editedProfile == old(editedProfile)
      ensures old(editedProfile).Some? && reply.Answered? && reply.ok ==>
                profile == Some(reply.data) && !isEditing && error == old(error)
      ensures old(editedProfile).Some? && reply.Answered? && !reply.ok ==>
                profile == old(profile) && isEditing == old(isEditing)
                && error == Some("Failed to save profile")
      ensures old(editedProfile).Some? && reply.NetworkFailure? ==>
                profile == old(profile) && isEditing == old(isEditing)
                && error == Some(ErrorText(reply.message, "Failed to save profile"))
    {
      sent := editedProfile;
      if editedProfile.None? {
        return;
      }
      loading := true;
      match reply {
        case Answered(ok, data) =>
          if ok {
            profile := Some(data);
            isEditing := false;
          } else {
            error := Some("Failed to save profile");
          }
        case NetworkFailure(message) =>
          error := Some(ErrorText(message, "Failed to save profile"));
      }
      loading := false;
    }
  }
}
