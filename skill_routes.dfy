/**
 * `GET /skills` and `GET /skills/top`. The grouping, counting and ordering
 * of `/top` is done by the database (`groupBy` on `name` with `_count`,
 * ordered by the count descending); here it is a tally over the skill
 * rows followed by an insertion sort on the count, and the contract is
 * what the query promises. The order among equal counts is not promised
 * by the query; the model fixes one.
 */
module SkillRoutes {
  import opened Schema

  const FetchFailed := Response(500, Failure("Failed to fetch skills"))
  const TopFailed := Response(500, Failure("Failed to fetch top skills"))

  /** `GET /skills`: every skill row, or a 500 when the query fails. */
  function GetSkills(skills: seq<SkillRecord>, storeFails: bool): (res: Response)
    ensures storeFails ==> res == FetchFailed
    ensures !storeFails ==> res.status == 200 && res.body == SkillList(skills)
  {
    if storeFails then FetchFailed else Response(200, SkillList(skills))
  }

  // ---------------------------------------------------------------------
  // Specification of a grouping
  // ---------------------------------------------------------------------

  /** How many skill rows carry the name `n`. */
  function Occurrences(skills: seq<SkillRecord>, n: string): nat
  {
    if skills == [] then 0 else (if skills[0].name == n then 1 else 0) + Occurrences(skills[1..], n)
  }

  /** Some skill row carries the name `n`. */
  predicate Listed(skills: seq<SkillRecord>, n: string)
  {
    exists i :: 0 <= i < |skills| && skills[i].name == n
  }

  /** Some group is named `n`. */
  predicate Named(t: seq<NameCount>, n: string)
  {
    exists i :: 0 <= i < |t| && t[i].name == n
  }

  /** No two groups share a name. */
  predicate DistinctNames(t: seq<NameCount>)
  {
    forall i, j :: 0 <= i < j < |t| ==> t[i].name != t[j].name
  }

  /** Counts never increase from one group to a later one. */
  predicate SortedByCount(t: seq<NameCount>)
  {
    forall i, j :: 0 <= i < j < |t| ==> t[i].count >= t[j].count
  }

  /** The total of the counts. */
  function Sum(t: seq<NameCount>): nat
  {
    if t == [] then 0 else t[0].count + Sum(t[1..])
  }

  /** A name occurs zero times exactly when no row carries it. */
  lemma {:induction false} OccurrencesZero(skills: seq<SkillRecord>, n: string)
    ensures Occurrences(skills, n) == 0 <==> !Listed(skills, n)
  {
    if skills != [] {
      OccurrencesZero(skills[1..], n);
      if Listed(skills[1..], n) {
        var i :| 0 <= i < |skills[1..]| && skills[1..][i].name == n;
        assert skills[i + 1].name == n;
      }
      if Listed(skills, n) && skills[0].name != n {
        var i :| 0 <= i < |skills| && skills[i].name == n;
        assert skills[1..][i - 1].name == n;
      }
    }
  }

  // ---------------------------------------------------------------------
  // Facts about groups with one more in front
  // ---------------------------------------------------------------------

  lemma NamedCons(a: NameCount, s: seq<NameCount>)
    ensures forall n :: Named([a] + s, n) <==> n == a.name || Named(s, n)
  {
    var r := [a] + s;
    forall n ensures Named(r, n) <==> n == a.name || Named(s, n) {
      assert r[0].name == a.name;
      if Named(s, n) {
        var i :| 0 <= i < |s| && s[i].name == n;
        assert r[i + 1].name == n;
      }
      if Named(r, n) && n != a.name {
        var i :| 0 <= i < |r| && r[i].name == n;
        assert s[i - 1].name == n;
      }
    }
  }

  lemma NamedTail(t: seq<NameCount>)
    requires t != []
    ensures forall n :: Named(t, n) <==> n == t[0].name || Named(t[1..], n)
  {
    assert t == [t[0]] + t[1..];
    NamedCons(t[0], t[1..]);
  }

  lemma DistinctTail(t: seq<NameCount>)
    requires t != []
    ensures DistinctNames(t) ==> DistinctNames(t[1..]) && !Named(t[1..], t[0].name)
  {
    if DistinctNames(t) {
      forall i | 0 <= i < |t[1..]| ensures t[1..][i].name != t[0].name {
        assert t[1..][i] == t[i + 1];
      }
    }
  }

  lemma DistinctCons(a: NameCount, s: seq<NameCount>)
    requires DistinctNames(s) && !Named(s, a.name)
    ensures DistinctNames([a] + s)
  {
    var r := [a] + s;
    forall i, j | 0 <= i < j < |r| ensures r[i].name != r[j].name {
      assert r[j] == s[j - 1];
      if i > 0 {
        assert r[i] == s[i - 1];
      }
    }
  }

  lemma SortedCons(a: NameCount, s: seq<NameCount>)
    requires SortedByCount(s)
    requires forall y :: y in s ==> a.count >= y.count
    ensures SortedByCount([a] + s)
  {
    var r := [a] + s;
    forall i, j | 0 <= i < j < |r| ensures r[i].count >= r[j].count {
      assert r[j] == s[j - 1];
      if i > 0 {
        assert r[i] == s[i - 1];
      }
    }
  }

  lemma SortedHead(s: seq<NameCount>)
    requires s != [] && SortedByCount(s)
    ensures SortedByCount(s[1..])
    ensures forall y :: y in s[1..] ==> s[0].count >= y.count
  {
    forall y | y in s[1..] ensures s[0].count >= y.count {
      var i :| 0 <= i < |s[1..]| && s[1..][i] == y;
      assert s[i + 1] == y;
    }
  }

  // ---------------------------------------------------------------------
  // Counting
  // ---------------------------------------------------------------------

  /** The count of the group named `n`, 0 when there is none. */
  function CountFor(t: seq<NameCount>, n: string): (c: nat)
    ensures !Named(t, n) ==> c == 0
    ensures Named(t, n) ==> exists i :: 0 <= i < |t| && t[i].name == n && t[i].count == c
  {
    if t == [] then 0
    else if t[0].name == n then t[0].count
    else
      var c := CountFor(t[1..], n);
      NamedTail(t);
      assert forall i :: 0 <= i < |t[1..]| ==> t[1..][i] == t[i + 1];
      c
  }

  /** `r` is `t` after counting one more row named `x`. */
  ghost predicate CountedOneMore(t: seq<NameCount>, x: string, r: seq<NameCount>)
  {
    && DistinctNames(r)
    && (forall n :: Named(r, n) <==> Named(t, n) || n == x)
    && (forall i :: 0 <= i < |r| && r[i].name != x ==> r[i] in t)
    && (forall i :: 0 <= i < |r| && r[i].name == x ==> r[i].count == CountFor(t, x) + 1)
    && Sum(r) == Sum(t) + 1
  }

  /** One more row named `x`: its group's count goes up by one, or a new group of 1 is added. */
  function Bump(t: seq<NameCount>, x: string): (r: seq<NameCount>)
    requires DistinctNames(t)
    ensures DistinctNames(r)
    ensures forall n :: Named(r, n) <==> Named(t, n) || n == x
    ensures forall i :: 0 <= i < |r| && r[i].name != x ==> r[i] in t
    ensures forall i :: 0 <= i < |r| && r[i].name == x ==> r[i].count == CountFor(t, x) + 1
    ensures Sum(r) == Sum(t) + 1
  {
    if t == [] then
      assert Sum([NameCount(x, 1)]) == 1;
      [NameCount(x, 1)]
    else if t[0].name == x then
      BumpFront(t, x);
      [NameCount(x, t[0].count + 1)] + t[1..]
    else
      DistinctTail(t);
      var rest := Bump(t[1..], x);
      BumpBehind(t, x, rest);
      [t[0]] + rest
  }

  /** The first group is `x`'s: it counts one more. */
  lemma BumpFront(t: seq<NameCount>, x: string)
    requires DistinctNames(t) && t != [] && t[0].name == x
    ensures CountedOneMore(t, x, [NameCount(x, t[0].count + 1)] + t[1..])
  {
    var head := NameCount(x, t[0].count + 1);
    var r := [head] + t[1..];
    NamedTail(t);
    DistinctTail(t);
    NamedCons(head, t[1..]);
    DistinctCons(head, t[1..]);
    assert r[1..] == t[1..];
    assert forall i :: 1 <= i < |r| ==> r[i] == t[i];
  }

  /** The first group is another name's: it stays in front of the bumped rest. */
  lemma BumpBehind(t: seq<NameCount>, x: string, rest: seq<NameCount>)
    requires DistinctNames(t) && t != [] && t[0].name != x
    requires CountedOneMore(t[1..], x, rest)
    ensures CountedOneMore(t, x, [t[0]] + rest)
  {
    BumpBehindNames(t, x, rest);
    BumpBehindCounts(t, x, rest);
  }

  lemma BumpBehindNames(t: seq<NameCount>, x: string, rest: seq<NameCount>)
    requires DistinctNames(t) && t != [] && t[0].name != x
    requires DistinctNames(rest)
    requires forall n :: Named(rest, n) <==> Named(t[1..], n) || n == x
    ensures DistinctNames([t[0]] + rest)
    ensures forall n :: Named([t[0]] + rest, n) <==> Named(t, n) || n == x
  {
    NamedTail(t);
    DistinctTail(t);
    NamedCons(t[0], rest);
    DistinctCons(t[0], rest);
  }

  lemma BumpBehindCounts(t: seq<NameCount>, x: string, rest: seq<NameCount>)
    requires t != [] && t[0].name != x
    requires forall i :: 0 <= i < |rest| && rest[i].name != x ==> rest[i] in t[1..]
    requires forall i :: 0 <= i < |rest| && rest[i].name == x ==> rest[i].count == CountFor(t[1..], x) + 1
    requires Sum(rest) == Sum(t[1..]) + 1
    ensures var r := [t[0]] + rest;
            && (forall i :: 0 <= i < |r| && r[i].name != x ==> r[i] in t)
            && (forall i :: 0 <= i < |r| && r[i].name == x ==> r[i].count == CountFor(t, x) + 1)
            && Sum(r) == Sum(t) + 1
  {
    var r := [t[0]] + rest;
    assert r[1..] == rest;
    assert CountFor(t, x) == CountFor(t[1..], x);
    forall i | 0 <= i < |r|
      ensures r[i].name != x ==> r[i] in t
      ensures r[i].name == x ==> r[i].count == CountFor(t, x) + 1
    {
      if i > 0 {
        assert r[i] == rest[i - 1];
        if r[i].name != x {
          var y := rest[i - 1];
          assert y in t[1..];
          var k :| 0 <= k < |t[1..]| && t[1..][k] == y;
          assert t[k + 1] == y;
        }
      }
    }
  }

  lemma ListedTail(skills: seq<SkillRecord>)
    requires skills != []
    ensures forall n :: Listed(skills, n) <==> n == skills[0].name || Listed(skills[1..], n)
  {
    var rest := skills[1..];
    forall n ensures Listed(skills, n) <==> n == skills[0].name || Listed(rest, n) {
      if Listed(rest, n) {
        var i :| 0 <= i < |rest| && rest[i].name == n;
        assert skills[i + 1].name == n;
      }
      if Listed(skills, n) && n != skills[0].name {
        var i :| 0 <= i < |skills| && skills[i].name == n;
        assert rest[i - 1].name == n;
      }
    }
  }

  /**
   * One group per distinct name of the rows, each with the number of rows
   * carrying that name; the counts add up to the number of rows.
   */
  function Tally(skills: seq<SkillRecord>): (t: seq<NameCount>)
    ensures DistinctNames(t)
    ensures forall n :: Named(t, n) <==> Listed(skills, n)
    ensures forall i :: 0 <= i < |t| ==> t[i].count == Occurrences(skills, t[i].name)
    ensures Sum(t) == |skills|
  {
    if skills == [] then []
    else
      var rest := skills[1..];
      var x := skills[0].name;
      var prior := Tally(rest);
      ListedTail(skills);
      OccurrencesZero(rest, x);
      assert CountFor(prior, x) == Occurrences(rest, x);
      Bump(prior, x)
  }

  // ---------------------------------------------------------------------
  // Ordering
  // ---------------------------------------------------------------------

  /** Places `e` before the first group with a count no larger than its own. */
  function Insert(e: NameCount, s: seq<NameCount>): (r: seq<NameCount>)
    requires SortedByCount(s)
    ensures SortedByCount(r)
    ensures |r| == |s| + 1
    ensures multiset(r) == multiset(s) + multiset{e}
    ensures forall y :: y in r <==> y == e || y in s
    ensures forall n :: Named(r, n) <==> n == e.name || Named(s, n)
    ensures DistinctNames(s) && !Named(s, e.name) ==> DistinctNames(r)
    ensures Sum(r) == e.count + Sum(s)
  {
    if s == [] || e.count >= s[0].count then
      InsertFront(e, s);
      [e] + s
    else
      SortedHead(s);
      var rest := Insert(e, s[1..]);
      InsertBehind(e, s, rest);
      ConsMultiset(s, rest, e);
      [s[0]] + rest
  }

  lemma InsertFront(e: NameCount, s: seq<NameCount>)
    requires SortedByCount(s) && (s == [] || e.count >= s[0].count)
    ensures SortedByCount([e] + s)
    ensures forall n :: Named([e] + s, n) <==> n == e.name || Named(s, n)
    ensures DistinctNames(s) && !Named(s, e.name) ==> DistinctNames([e] + s)
    ensures Sum([e] + s) == e.count + Sum(s)
  {
    assert ([e] + s)[1..] == s;
    if s != [] {
      SortedHead(s);
    }
    SortedCons(e, s);
    NamedCons(e, s);
    if DistinctNames(s) && !Named(s, e.name) {
      DistinctCons(e, s);
    }
  }

  lemma InsertBehind(e: NameCount, s: seq<NameCount>, rest: seq<NameCount>)
    requires s != [] && SortedByCount(s) && e.count < s[0].count
    requires SortedByCount(rest)
    requires forall y :: y in rest <==> y == e || y in s[1..]
    requires forall n :: Named(rest, n) <==> n == e.name || Named(s[1..], n)
    requires DistinctNames(s[1..]) && !Named(s[1..], e.name) ==> DistinctNames(rest)
    ensures SortedByCount([s[0]] + rest)
    ensures forall y :: y in [s[0]] + rest <==> y == e || y in s
    ensures forall n :: Named([s[0]] + rest, n) <==> n == e.name || Named(s, n)
    ensures DistinctNames(s) && !Named(s, e.name) ==> DistinctNames([s[0]] + rest)
  {
    SortedHead(s);
    SortedCons(s[0], rest);
    NamedCons(s[0], rest);
    NamedTail(s);
    assert forall y :: y in s <==> y == s[0] || y in s[1..];
    DistinctTail(s);
    if DistinctNames(s) && !Named(s, e.name) {
      DistinctCons(s[0], rest);
    }
  }

  /** Putting the head of `s` back in front of `rest` restores the multiset of `s`, plus `e`. */
  lemma ConsMultiset(s: seq<NameCount>, rest: seq<NameCount>, e: NameCount)
    requires s != [] && multiset(rest) == multiset(s[1..]) + multiset{e}
    ensures multiset([s[0]] + rest) == multiset(s) + multiset{e}
  {
    assert s == [s[0]] + s[1..];
  }

  /** Insertion sort of the groups by count, largest first. */
  function SortByCount(t: seq<NameCount>): (r: seq<NameCount>)
    ensures SortedByCount(r)
    ensures |r| == |t|
    ensures multiset(r) == multiset(t)
    ensures forall y :: y in r <==> y in t
    ensures forall n :: Named(r, n) <==> Named(t, n)
    ensures DistinctNames(t) ==> DistinctNames(r)
    ensures Sum(r) == Sum(t)
  {
    if t == [] then []
    else
      var rest := SortByCount(t[1..]);
      assert forall y :: y in t <==> y == t[0] || y in t[1..];
      NamedTail(t);
      DistinctTail(t);
      var r := Insert(t[0], rest);
      HeadBackMultiset(t, rest, r);
      r
  }

  /** Inserting the head of `t` into a permutation of its tail gives a permutation of `t`. */
  lemma HeadBackMultiset(t: seq<NameCount>, rest: seq<NameCount>, r: seq<NameCount>)
    requires t != [] && multiset(rest) == multiset(t[1..])
    requires multiset(r) == multiset(rest) + multiset{t[0]}
    ensures multiset(r) == multiset(t)
  {
    assert t == [t[0]] + t[1..];
  }

  /**
   * `GET /skills/top`'s groups: one per distinct skill name, each counting
   * the rows with that name, largest count first, the counts adding up to
   * the number of rows.
   */
  function Top(skills: seq<SkillRecord>): (r: seq<NameCount>)
    ensures DistinctNames(r)
    ensures forall n :: Named(r, n) <==> Listed(skills, n)
    ensures forall i :: 0 <= i < |r| ==> r[i].count == Occurrences(skills, r[i].name)
    ensures SortedByCount(r)
    ensures Sum(r) == |skills|
  {
    var t := Tally(skills);
    var r := SortByCount(t);
    assert forall i :: 0 <= i < |r| ==> r[i].count == Occurrences(skills, r[i].name) by {
      forall i | 0 <= i < |r| ensures r[i].count == Occurrences(skills, r[i].name) {
        assert r[i] in t;
      }
    }
    r
  }

  /** `GET /skills/top`: the groups, or a 500 when the query fails. */
  function GetTopSkills(skills: seq<SkillRecord>, storeFails: bool): (res: Response)
    ensures storeFails ==> res == TopFailed
    ensures !storeFails ==> res.status == 200 && res.body == TopList(Top(skills))
  {
    if storeFails then TopFailed else Response(200, TopList(Top(skills)))
  }

  /** Every group counts at least one row. */
  lemma TopCountsPositive(skills: seq<SkillRecord>)
    ensures forall i :: 0 <= i < |Top(skills)| ==> Top(skills)[i].count >= 1
  {
    var r := Top(skills);
    forall i | 0 <= i < |r| ensures r[i].count >= 1 {
      assert Named(r, r[i].name);
      OccurrencesZero(skills, r[i].name);
    }
  }
}
