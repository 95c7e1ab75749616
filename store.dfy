/**
 * The two tables the route handlers write: profiles, unique by e-mail, and
 * projects. Each is an object whose fields the handlers update in place,
 * as the shared database client does.
 */
module Store {
  import opened Wrappers
  import opened Schema

  /** `order` with every occurrence of `from` replaced by `to`. */
  function Renamed(order: seq<string>, from: string, to: string): (r: seq<string>)
    ensures |r| == |order|
    ensures forall i :: 0 <= i < |order| ==> r[i] == if order[i] == from then to else order[i]
  {
    seq(|order|, i requires 0 <= i < |order| => if order[i] == from then to else order[i])
  }

  /**
   * The profile table's invariant: each row is keyed by its e-mail (the
   * unique constraint on `email`), and `order` lists every key exactly once.
   */
  ghost predicate Indexed(rows: map<string, Profile>, order: seq<string>)
  {
    && (forall e :: e in rows ==> rows[e].email == e)
    && (forall i :: 0 <= i < |order| ==> order[i] in rows)
    && (forall e :: e in rows ==> e in order)
    && (forall i, j :: 0 <= i < j < |order| ==> order[i] != order[j])
  }

  /**
   * Replacing the row under `key` by `p`, whose e-mail is `key` or free,
   * and renaming the key in place keeps the table indexed.
   */
  lemma RenameKeepsIndexed(rows: map<string, Profile>, order: seq<string>, key: string, p: Profile)
    requires Indexed(rows, order) && key in rows
    requires p.email == key || p.email !in rows
    ensures Indexed((rows - {key})[p.email := p], Renamed(order, key, p.email))
  {
    RenamedOrderInRows(rows, order, key, p);
    RenamedRowsInOrder(rows, order, key, p);
    RenamedDistinct(rows, order, key, p.email);
  }

  lemma RenamedOrderInRows(rows: map<string, Profile>, order: seq<string>, key: string, p: Profile)
    requires forall i :: 0 <= i < |order| ==> order[i] in rows
    ensures var order' := Renamed(order, key, p.email);
            forall i :: 0 <= i < |order'| ==> order'[i] in (rows - {key})[p.email := p]
  {
  }

  lemma RenamedRowsInOrder(rows: map<string, Profile>, order: seq<string>, key: string, p: Profile)
    requires key in rows && forall e :: e in rows ==> e in order
    ensures forall e :: e in (rows - {key})[p.email := p] ==> e in Renamed(order, key, p.email)
  {
    var order' := Renamed(order, key, p.email);
    forall e | e in (rows - {key})[p.email := p] ensures e in order' {
      var k := if e == p.email then key else e;
      var i :| 0 <= i < |order| && order[i] == k;
      assert order'[i] == e;
    }
  }

  lemma RenamedDistinct(rows: map<string, Profile>, order: seq<string>, key: string, to: string)
    requires forall i :: 0 <= i < |order| ==> order[i] in rows
    requires forall i, j :: 0 <= i < j < |order| ==> order[i] != order[j]
    requires to == key || to !in rows
    ensures var order' := Renamed(order, key, to);
            forall i, j :: 0 <= i < j < |order'| ==> order'[i] != order'[j]
  {
  }

  /**
   * The profile table. `rows` maps each e-mail to the one profile that has
   * it; `order` lists the keys in the order the rows were created. Queries
   * without `orderBy` promise no order; this one is the model's choice.
   */
  class ProfileTable {
    var rows: map<string, Profile>
    var order: seq<string>

    ghost predicate Valid()
      reads this
    {
      Indexed(rows, order)
    }

    constructor ()
      ensures Valid() && rows == map[] && order == []
    {
      rows := map[];
      order := [];
    }

    /**
     * `findFirst()`: some stored profile, here the first in table order, or
     * null (None) exactly when the table is empty.
     */
    function FindFirst(): (r: Option<Profile>)
      reads this
      requires Valid()
      ensures r.None? <==> rows == map[]
      ensures r.Some? ==> r.value.email in rows && rows[r.value.email] == r.value
      ensures r.Some? ==> r.value.email == order[0]
    {
      if order == [] then None
      else Some(rows[order[0]])
    }

    /** `create`: a new row; the caller has checked that its e-mail is free. */
    method Create(p: Profile)
      requires Valid() && p.email !in rows
      modifies this
      ensures Valid()
      ensures rows == old(rows)[p.email := p]
      ensures order == old(order) + [p.email]
    {
      rows := rows[p.email := p];
      order := order + [p.email];
    }

    /**
     * `update` of the row stored under `key` to `p`, which may carry a new
     * e-mail; the caller has checked that this e-mail is free. The row keeps
     * its place in the creation order.
     */
    method Update(key: string, p: Profile)
      requires Valid() && key in rows
      requires p.email == key || p.email !in rows
      modifies this
      ensures Valid()
      ensures rows == (old(rows) - {key})[p.email := p]
      ensures order == Renamed(old(order), key, p.email)
    {
      RenameKeepsIndexed(rows, order, key, p);
      rows := (rows - {key})[p.email := p];
      order := Renamed(order, key, p.email);
    }
  }

  /** The project table, in creation order. */
  class ProjectTable {
    var projects: seq<Project>

    constructor ()
      ensures projects == []
    {
      projects := [];
    }

    /** `create`: the new project goes after all existing ones. */
    method Create(p: Project)
      modifies this
      ensures projects == old(projects) + [p]
    {
      projects := projects + [p];
    }
  }
}
