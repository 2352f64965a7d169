/** Which models are household records: a depth-first search that carries only its own path. */
module ModelGraph {
  type Model = string

  datatype OnDelete = Cascade | Restrict | Protect | SetNull | DoNothing
  datatype Field = Plain | Key(onDelete: OnDelete, target: Model)

  /** `fields` is the registry of concrete models; `user` and `family` are the two owners. */
  datatype Graph = Graph(fields: map<Model, seq<Field>>, user: Model, family: Model) {
    predicate IsOwner(m: Model) {
      m == user || m == family
    }

    /** Every foreign key points at a registered model. */
    ghost predicate Closed() {
      && user in fields && family in fields
      && forall m, i | m in fields && 0 <= i < |fields[m]| && fields[m][i].Key? :: fields[m][i].target in fields
    }
  }

  predicate Owns(f: Field) {
    f.Key? && f.onDelete in {Cascade, Restrict, Protect}
  }

  predicate HasFamilyOwner(g: Graph, m: Model, seen: set<Model> := {})
    requires g.Closed() && m in g.fields
    decreases g.fields.Keys - seen
  {
    if g.IsOwner(m) then true
    else if m in seen then false
    else
      exists i | 0 <= i < |g.fields[m]| ::
        Owns(g.fields[m][i]) && HasFamilyOwner(g, g.fields[m][i].target, seen + {m})
  }

  // ---------------------------------------------------------------- the independent definition

  ghost predicate Points(g: Graph, a: Model, b: Model) {
    a in g.fields && exists i | 0 <= i < |g.fields[a]| :: Owns(g.fields[a][i]) && g.fields[a][i].target == b
  }

  /** A walk along cascade, restrict and protect links that ends at an owner; it may repeat models. */
  ghost predicate LeadsToOwner(g: Graph, walk: seq<Model>) {
    && walk != []
    && g.IsOwner(walk[|walk| - 1])
    && forall k | 0 <= k < |walk| - 1 :: Points(g, walk[k], walk[k + 1])
  }

  ghost predicate Avoids(g: Graph, walk: seq<Model>, seen: set<Model>) {
    forall k | 0 <= k < |walk| && !g.IsOwner(walk[k]) :: walk[k] !in seen
  }

  /** The search never invents an owner. */
  lemma {:induction false} FoundOwnerIsReachable(g: Graph, m: Model, seen: set<Model>) returns (walk: seq<Model>)
    requires g.Closed() && m in g.fields && HasFamilyOwner(g, m, seen)
    ensures LeadsToOwner(g, walk) && walk[0] == m
    decreases g.fields.Keys - seen
  {
    if g.IsOwner(m) {
      walk := [m];
    } else {
      var i :| 0 <= i < |g.fields[m]| && Owns(g.fields[m][i]) && HasFamilyOwner(g, g.fields[m][i].target, seen + {m});
      var rest := FoundOwnerIsReachable(g, g.fields[m][i].target, seen + {m});
      assert Points(g, m, rest[0]);
      walk := [m] + rest;
    }
  }

  ghost function LastVisit(walk: seq<Model>, m: Model): (k: nat)
    requires m in walk
    ensures k < |walk| && walk[k] == m && m !in walk[k + 1..]
  {
    if walk[|walk| - 1] == m then |walk| - 1
    else
      var k := LastVisit(walk[..|walk| - 1], m);
      assert walk[k + 1..] == walk[..|walk| - 1][k + 1..] + [walk[|walk| - 1]];
      k
  }

  /** Cutting a walk after its last visit to the current model keeps it off the path, so the search cannot miss it. */
  lemma {:induction false} ReachableOwnerIsFound(g: Graph, m: Model, seen: set<Model>, walk: seq<Model>)
    requires g.Closed() && m in g.fields
    requires LeadsToOwner(g, walk) && walk[0] == m && Avoids(g, walk, seen)
    ensures HasFamilyOwner(g, m, seen)
    decreases |walk|
  {
    if !g.IsOwner(m) {
      var k := LastVisit(walk, m);
      var rest := walk[k + 1..];
      assert Points(g, m, rest[0]) by { assert walk[k + 1] == rest[0]; }
      assert forall j | 0 <= j < |rest| - 1 :: Points(g, rest[j], rest[j + 1]) by {
        forall j | 0 <= j < |rest| - 1 ensures Points(g, rest[j], rest[j + 1]) {
          assert Points(g, walk[k + 1 + j], walk[k + 1 + j + 1]);
        }
      }
      assert Avoids(g, rest, seen + {m}) by {
        forall j | 0 <= j < |rest| && !g.IsOwner(rest[j]) ensures rest[j] !in seen + {m} {
          assert rest[j] == walk[k + 1 + j];
        }
      }
      ReachableOwnerIsFound(g, rest[0], seen + {m}, rest);
    }
  }

  /** The search answers exactly reachability of User or Family, on cyclic graphs too. */
  lemma HasFamilyOwnerIsReachability(g: Graph, m: Model)
    requires g.Closed() && m in g.fields
    ensures HasFamilyOwner(g, m) <==> exists walk :: LeadsToOwner(g, walk) && walk[0] == m
  {
    if HasFamilyOwner(g, m) {
      var walk := FoundOwnerIsReachable(g, m, {});
    } else if exists walk :: LeadsToOwner(g, walk) && walk[0] == m {
      var walk :| LeadsToOwner(g, walk) && walk[0] == m;
      ReachableOwnerIsFound(g, m, {}, walk);
    }
  }
}
