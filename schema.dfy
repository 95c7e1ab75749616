/**
 * Records of the portfolio back end and the HTTP responses its handlers
 * send. bcrypt and JSON Web Tokens (RFC 7519) are kept symbolic: a digest
 * or a token is a term built from its inputs, and the only way the model
 * looks inside a digest is `Matches`, the counterpart of `bcrypt.compare`.
 */
module Schema {
  import opened Wrappers

  /** The cost factor passed to `bcrypt.hash`. */
  const SaltRounds: nat := 10

  /** A bcrypt digest of `secret` at the given cost. */
  datatype Digest = Bcrypt(secret: string, rounds: nat)

  /** `bcrypt.hash(password, rounds)`. */
  function Hash(password: string, rounds: nat): Digest
  {
    Bcrypt(password, rounds)
  }

  /** `bcrypt.compare(password, digest)`. */
  predicate Matches(password: string, d: Digest)
  {
    d.secret == password
  }

  /** The claims the back end puts in every token it issues. */
  datatype Claims = Claims(userId: string, email: string)

  /** `expiresIn: "7d"`, in seconds. */
  const TokenLifetime: int := 7 * 24 * 60 * 60

  /**
   * A signed token: its claims, the signing secret, and the issue time
   * (`iat`) and expiry (`exp`), in seconds, that `jwt.sign` adds.
   */
  datatype Token = Jwt(claims: Claims, secret: string, issuedAt: int, expiresAt: int)

  /** `jwt.sign(claims, secret, { expiresIn: "7d" })` at the clock reading `now` (seconds). */
  function Sign(claims: Claims, secret: string, now: int): Token
  {
    Jwt(claims, secret, now, now + TokenLifetime)
  }

  /** A row of the profile table; `password` is absent for profiles made without credentials. */
  datatype Profile = Profile(id: string, email: string, name: string, password: Option<Digest>)

  /** The `user` object of an authentication response: no password, no digest. */
  datatype PublicUser = PublicUser(id: string, email: string, name: string)

  function PublicView(p: Profile): PublicUser
  {
    PublicUser(p.id, p.email, p.name)
  }

  /** A project's link to a skill, with the linked skill's name. */
  datatype SkillRef = SkillRef(skillId: string, name: string)

  /** A project link such as `{type: "github", url}`. */
  datatype Link = Link(id: string, kind: string, url: string)

  datatype Project = Project(id: string, title: string, description: string, work: string,
                             profileId: string, skills: seq<SkillRef>, links: seq<Link>)

  /** A row of the skill table. */
  datatype SkillRecord = SkillRecord(id: string, name: string, profileId: string)

  /** One group of `GET /skills/top`: a skill name and how many skill rows carry it. */
  datatype NameCount = NameCount(name: string, count: nat)

  /** The JSON bodies the handlers send. */
  datatype Body =
    | Message(message: string)
    | Failure(error: string)
    | Session(message: string, token: Token, user: PublicUser)
    | ProfileJson(profile: Option<Profile>)
    | ProjectJson(project: Project)
    | ProjectList(projects: seq<Project>)
    | SkillList(skills: seq<SkillRecord>)
    | TopList(top: seq<NameCount>)

  datatype Response = Response(status: nat, body: Body)
}
