/**
 * `GET /profile` and `POST /profile`. The POST body's `name` and `email`
 * are optional: an absent field (`None`) is left alone by the update half
 * of the upsert, while a present one, even the empty string, is written.
 * Both columns are required on create and `email` is unique, so a create
 * without them, or an update onto an e-mail another row holds, fails in
 * the store.
 */
module ProfileRoutes {
  import opened Wrappers
  import opened Schema
  import opened Store

  const FetchFailed := Response(500, Failure("Failed to fetch profile"))
  const SaveFailed := Response(500, Failure("Failed to save profile"))

  /** `GET /profile`: the first profile in table order, `null` when there is none. */
  function GetProfile(db: ProfileTable, storeFails: bool): (res: Response)
    reads db
    requires db.Valid()
    ensures storeFails ==> res == FetchFailed
    ensures !storeFails ==> res.status == 200 && res.body.ProfileJson?
    ensures !storeFails ==> (res.body.profile.None? <==> db.rows == map[])
    ensures !storeFails && res.body.profile.Some? ==>
              var p := res.body.profile.value;
              p.email in db.rows && db.rows[p.email] == p && p.email == db.order[0]
  {
    if storeFails then FetchFailed else Response(200, ProfileJson(db.FindFirst()))
  }

  /** The key used when the request carries no (or an empty) e-mail. */
  const DefaultKey := "unique-default"

  /** `where: { email: email || "unique-default" }`. */
  function UpsertKey(email: Option<string>): (k: string)
    ensures k != ""
    ensures email.Some? && email.value != "" ==> k == email.value
    ensures email.None? || email.value == "" ==> k == DefaultKey
  {
    if email.Some? && email.value != "" then email.value else DefaultKey
  }

  /** What the upsert does: update the row under `key`, create a row, or fail in the store. */
  datatype UpsertOutcome =
    | Updated(key: string, profile: Profile)
    | Created(profile: Profile)
    | Rejected

  /** Every row is stored under its own e-mail (the table's unique index). */
  ghost predicate KeyedByEmail(rows: map<string, Profile>)
  {
    forall e :: e in rows ==> rows[e].email == e
  }

  /** The decision of `prisma.profile.upsert` for one request. */
  function Upsert(rows: map<string, Profile>, name: Option<string>, email: Option<string>, newId: string)
    : (o: UpsertOutcome)
    ensures o.Updated? ==> UpsertKey(email) in rows && o.key == UpsertKey(email)
    ensures o.Updated? ==>
              var before := rows[o.key];
              && o.profile.id == before.id && o.profile.password == before.password
              && o.profile.name == name.GetOr(before.name)
              && o.profile.email == email.GetOr(before.email)
    ensures o.Created? ==> UpsertKey(email) !in rows
    ensures o.Created? ==> name.Some? && email.Some? && o.profile == Profile(newId, email.value, name.value, None)
    ensures o.Rejected? <==>
              if UpsertKey(email) in rows
              then
                var target := email.GetOr(rows[UpsertKey(email)].email);
                target != UpsertKey(email) && target in rows
              else name.None? || email.None? || email.value in rows
  {
    var key := UpsertKey(email);
    if key in rows then
      var current := rows[key];
      var updated := current.(name := name.GetOr(current.name), email := email.GetOr(current.email));
      if updated.email != key && updated.email in rows then Rejected else Updated(key, updated)
    else if name.None? || email.None? || email.value in rows then Rejected
    else Created(Profile(newId, email.value, name.value, None))
  }

  /** The table's rows after an outcome. */
  function Apply(rows: map<string, Profile>, o: UpsertOutcome): map<string, Profile>
  {
    match o
    case Updated(key, p) => (rows - {key})[p.email := p]
    case Created(p) => rows[p.email := p]
    case Rejected => rows
  }

  /**
   * The upsert touches one row: every other row keeps its key and its
   * value, and a created row comes on top of the existing ones.
   */
  lemma UpsertTouchesOneRow(rows: map<string, Profile>, name: Option<string>, email: Option<string>,
                            newId: string)
    requires KeyedByEmail(rows)
    ensures var o := Upsert(rows, name, email, newId);
            var after := Apply(rows, o);
            && KeyedByEmail(after)
            && (forall e :: e in rows && e != UpsertKey(email) ==> e in after && after[e] == rows[e])
            && (o.Created? ==> after.Keys == rows.Keys + {o.profile.email})
            && (o.Updated? ==> after.Keys == rows.Keys - {o.key} + {o.profile.email})
            && (o.Rejected? ==> after == rows)
  {
  }

  /**
   * Sending the same body twice with a non-empty e-mail leaves the table
   * as the first request left it, and answers with the same profile.
   */
  lemma {:induction false} UpsertIdempotent(rows: map<string, Profile>, name: Option<string>, email: string,
                                            id1: string, id2: string)
    requires KeyedByEmail(rows) && email != ""
    requires !Upsert(rows, name, Some(email), id1).Rejected?
    ensures var first := Upsert(rows, name, Some(email), id1);
            var after := Apply(rows, first);
            var second := Upsert(after, name, Some(email), id2);
            && second == Updated(email, first.profile)
            && Apply(after, second) == after
  {
    var first := Upsert(rows, name, Some(email), id1);
    var after := Apply(rows, first);
    var p := first.profile;
    assert p.email == email;
    assert email in after && after[email] == p;
    if first.Updated? {
      assert name.GetOr(p.name) == p.name;
    }
    var second := Upsert(after, name, Some(email), id2);
    assert second == Updated(email, p);
    assert Apply(after, second) == after;
  }

  /**
   * `POST /profile`: the upsert, or a 500 when it fails in the store. An
   * updated row keeps its place in table order; a created one goes last.
   */
  method SaveProfile(db: ProfileTable, name: Option<string>, email: Option<string>, newId: string,
                     storeFails: bool) returns (res: Response)
    requires db.Valid()
    modifies db
    ensures db.Valid()
    ensures var o := Upsert(old(db.rows), name, email, newId);
            if storeFails || o.Rejected? then res == SaveFailed && unchanged(db)
            else
              && db.rows == Apply(old(db.rows), o)
              && res == Response(200, ProfileJson(Some(o.profile)))
              && (o.Updated? ==> db.order == Renamed(old(db.order), o.key, o.profile.email))
              && (o.Created? ==> db.order == old(db.order) + [o.profile.email])
  {
    if storeFails {
      return SaveFailed;
    }
    var outcome := Upsert(db.rows, name, email, newId);
    match outcome
    case Rejected =>
      res := SaveFailed;
    case Updated(key, p) =>
      db.Update(key, p);
      res := Response(200, ProfileJson(Some(p)));
    case Created(p) =>
      db.Create(p);
      res := Response(200, ProfileJson(Some(p)));
  }
}
