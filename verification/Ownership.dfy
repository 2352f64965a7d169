/** The deletion preflight: every record reachable from the collected rows must belong to one family. */
module Ownership {
  import opened Options
  import opened ModelGraph

  datatype Ref = Ref(model: Model, pk: int)

  /** A foreign key of one row: the row it resolves to, and whether it stores that row's primary key. */
  datatype Link = Link(related: Model, row: Option<Ref>, storesPk: bool)

  /** `family` is the household column of a user row. */
  datatype Record = Record(family: int, links: seq<Link>)

  datatype Db = Db(graph: Graph, application: Model, activity: Model, rows: map<Ref, Record>) {
    /** Foreign keys are enforced: a link names a registered model and resolves to a stored row of it. */
    ghost predicate Consistent() {
      && graph.Closed()
      && graph.user != graph.family
      && forall r, i | r in rows && 0 <= i < |rows[r].links| ::
           var link := rows[r].links[i];
           link.related in graph.fields
             && (link.row.Some? ==> link.row.value in rows && link.row.value.model == link.related)
    }

    predicate Followed(link: Link)
      requires graph.Closed() && link.related in graph.fields
    {
      link.row.Some? && HasFamilyOwner(graph, link.related) && link.related != application
    }

    predicate Belongs(r: Ref, family: int)
      requires r in rows
    {
      if r.model == graph.family then r.pk == family
      else if r.model == graph.user then rows[r].family == family
      else true
    }
  }

  ghost predicate Step(db: Db, a: Ref, b: Ref)
    requires db.Consistent()
  {
    && a in db.rows && a.model != db.graph.user
    && exists i | 0 <= i < |db.rows[a].links| :: db.Followed(db.rows[a].links[i]) && db.rows[a].links[i].row == Some(b)
  }

  ghost predicate IsWalk(db: Db, walk: seq<Ref>)
    requires db.Consistent()
  {
    forall k | 0 <= k < |walk| - 1 :: Step(db, walk[k], walk[k + 1])
  }

  ghost predicate Reaches(db: Db, a: Ref, b: Ref)
    requires db.Consistent()
  {
    exists walk: seq<Ref> :: walk != [] && walk[0] == a && walk[|walk| - 1] == b && IsWalk(db, walk)
  }

  /** Everything reachable from `a` along followed links, never through a user, is of this family. */
  ghost predicate AllBelong(db: Db, a: Ref, family: int)
    requires db.Consistent()
  {
    forall b | b in db.rows && Reaches(db, a, b) :: db.Belongs(b, family)
  }

  lemma ReachesItself(db: Db, a: Ref)
    requires db.Consistent()
    ensures Reaches(db, a, a)
  {
    assert IsWalk(db, [a]);
  }

  lemma StepThenReaches(db: Db, a: Ref, b: Ref, c: Ref)
    requires db.Consistent() && Step(db, a, b) && Reaches(db, b, c)
    ensures Reaches(db, a, c)
  {
    var walk :| walk != [] && walk[0] == b && walk[|walk| - 1] == c && IsWalk(db, walk);
    var longer := [a] + walk;
    assert forall k | 0 < k < |longer| - 1 :: Step(db, walk[k - 1], walk[k]);
    assert IsWalk(db, longer);
  }

  /** A set of checked rows that is closed under followed links, all of this family. */
  ghost predicate Settled(db: Db, checked: set<Ref>, family: int)
    requires db.Consistent()
  {
    forall n | n in checked :: n in db.rows && db.Belongs(n, family) && forall m | Step(db, n, m) :: m in checked
  }

  lemma {:induction false} SettledHoldsTheWalk(db: Db, checked: set<Ref>, family: int, walk: seq<Ref>)
    requires db.Consistent() && Settled(db, checked, family)
    requires walk != [] && walk[0] in checked && IsWalk(db, walk)
    ensures walk[|walk| - 1] in checked
    decreases |walk|
  {
    if |walk| > 1 {
      assert Step(db, walk[0], walk[1]);
      var rest := walk[1..];
      forall k | 0 <= k < |rest| - 1 ensures Step(db, rest[k], rest[k + 1]) {
        assert Step(db, walk[k + 1], walk[k + 1 + 1]);
      }
      SettledHoldsTheWalk(db, checked, family, walk[1..]);
    }
  }

  lemma SettledBelongs(db: Db, checked: set<Ref>, family: int, a: Ref)
    requires db.Consistent() && Settled(db, checked, family) && a in checked
    ensures AllBelong(db, a, family)
  {
    forall b | b in db.rows && Reaches(db, a, b) ensures db.Belongs(b, family) {
      var walk :| walk != [] && walk[0] == a && walk[|walk| - 1] == b && IsWalk(db, walk);
      SettledHoldsTheWalk(db, checked, family, walk);
    }
  }

  ghost predicate Foreign(db: Db, a: Ref, b: Ref, family: int)
    requires db.Consistent()
  {
    b in db.rows && Reaches(db, a, b) && !db.Belongs(b, family)
  }

  /** What a search adds is expanded into the visited set, even while its callers are not yet finished. */
  ghost predicate Expanded(db: Db, added: set<Ref>, checked: set<Ref>, family: int)
    requires db.Consistent()
  {
    forall n | n in added :: n in db.rows && db.Belongs(n, family) && forall m | Step(db, n, m) :: m in checked
  }

  /** `_assert_object_family` with its caller's `checked` set; `ok` is false where the source raises a conflict. */
  class Preflight {
    var checked: set<Ref>

    constructor ()
      ensures checked == {}
    {
      checked := {};
    }

    method AssertFamily(db: Db, r: Ref, family: int) returns (ok: bool)
      requires db.Consistent() && r in db.rows
      modifies this
      ensures old(checked) <= checked
      ensures ok ==> r in checked && Expanded(db, checked - old(checked), checked, family)
      ensures !ok ==> exists b :: Foreign(db, r, b, family)
      decreases db.rows.Keys - checked, 0
    {
      if r in checked {
        return true;
      }
      checked := checked + {r};
      ReachesItself(db, r);
      if r.model == db.graph.family {
        if r.pk != family {
          assert Foreign(db, r, r, family);
          return false;
        }
      } else if r.model == db.graph.user {
        if db.rows[r].family != family {
          assert Foreign(db, r, r, family);
          return false;
        }
        return true;
      }
      ok := FollowLinks(db, r, family);
    }

    method FollowLinks(db: Db, r: Ref, family: int) returns (ok: bool)
      requires db.Consistent() && r in db.rows && r.model != db.graph.user && r in checked
      modifies this
      ensures old(checked) <= checked
      ensures ok ==>
        (forall m | Step(db, r, m) :: m in checked) && Expanded(db, checked - old(checked), checked, family)
      ensures !ok ==> exists b :: Foreign(db, r, b, family)
      decreases db.rows.Keys - checked, 1
    {
      var links := db.rows[r].links;
      for i := 0 to |links|
        invariant old(checked) <= checked
        invariant forall j | 0 <= j < i && db.Followed(links[j]) :: links[j].row.value in checked
        invariant Expanded(db, checked - old(checked), checked, family)
      {
        var link := links[i];
        if db.Followed(link) && !(link.storesPk && link.row.value in checked) {
          var fine := AssertFamily(db, link.row.value, family);
          if !fine {
            ghost var b :| Foreign(db, link.row.value, b, family);
            assert Step(db, r, link.row.value);
            StepThenReaches(db, r, link.row.value, b);
            assert Foreign(db, r, b, family);
            return false;
          }
        }
      }
      ok := true;
    }

    /** Between rows the shared set is settled, so a row's verdict is the one a fresh search would give. */
    method CheckRow(db: Db, r: Ref, family: int) returns (ok: bool)
      requires db.Consistent() && r in db.rows && Settled(db, checked, family)
      modifies this
      ensures ok <==> AllBelong(db, r, family)
      ensures ok ==> Settled(db, checked, family)
    {
      ok := AssertFamily(db, r, family);
      if ok {
        SettledBelongs(db, checked, family, r);
      } else {
        ghost var b :| Foreign(db, r, b, family);
      }
    }

    method CheckRows(db: Db, rows: seq<Ref>, family: int) returns (ok: bool)
      requires db.Consistent() && Settled(db, checked, family) && forall r | r in rows :: r in db.rows
      modifies this
      ensures ok <==> forall r | r in rows :: AllBelong(db, r, family)
      ensures ok ==> Settled(db, checked, family)
    {
      for i := 0 to |rows|
        invariant Settled(db, checked, family)
        invariant forall j | 0 <= j < i :: AllBelong(db, rows[j], family)
      {
        var fine := CheckRow(db, rows[i], family);
        if !fine {
          return false;
        }
      }
      ok := true;
    }
  }

  /** One collected group: rows to delete, or rows whose nullable link will be cleared. */
  datatype Group = Group(model: Model, rows: seq<Ref>, isUpdate: bool)

  predicate InScope(db: Db, g: Group)
    requires db.Consistent() && g.model in db.graph.fields
  {
    g.isUpdate ==> g.model != db.activity && HasFamilyOwner(db.graph, g.model)
  }

  ghost predicate Collected(db: Db, groups: seq<Group>)
    requires db.Consistent()
  {
    forall k | 0 <= k < |groups| :: groups[k].model in db.graph.fields && forall r | r in groups[k].rows :: r in db.rows
  }

  ghost predicate GroupsBelong(db: Db, groups: seq<Group>, family: int)
    requires db.Consistent() && Collected(db, groups)
  {
    forall k | 0 <= k < |groups| && InScope(db, groups[k]) :: forall r | r in groups[k].rows :: AllBelong(db, r, family)
  }

  /** The check loop of `collect_safe_deletion`: sharing one visited set never changes a verdict. */
  method CheckGroups(db: Db, groups: seq<Group>, family: int) returns (ok: bool)
    requires db.Consistent() && Collected(db, groups)
    ensures ok <==> GroupsBelong(db, groups, family)
  {
    var search := new Preflight();
    for k := 0 to |groups|
      invariant Settled(db, search.checked, family)
      invariant GroupsBelong(db, groups[..k], family)
    {
      if InScope(db, groups[k]) {
        var fine := search.CheckRows(db, groups[k].rows, family);
        if !fine {
          return false;
        }
      }
      assert groups[..k + 1] == groups[..k] + [groups[k]];
    }
    assert groups[..|groups|] == groups;
    ok := true;
  }
}
