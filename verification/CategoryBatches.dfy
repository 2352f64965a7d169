/** The shared reader of one request: category selectors resolved together in bounded batches. */
module CategoryBatches {
  import opened Collections
  import opened Options
  import opened Json
  import opened CategoryNames

  /** `criteria_type`; the kinds that availability does not look at are one constructor. */
  datatype GoalKind =
    | SkillLevelReached | SubjectsCompleted | SkillCategoriesBreadth | CategoryMastery | CategoryProjects
    | PetsHatched | PetSpeciesOwned | MountsEvolved
    | FullPotionShelf | CosmeticSetOwned | CosmeticFullSet
    | OtherKind(name: string)
  {
    predicate IsLevel() {
      SkillLevelReached? || SubjectsCompleted? || SkillCategoriesBreadth? || CategoryMastery?
    }

    predicate IsPet() {
      PetsHatched? || PetSpeciesOwned? || MountsEvolved?
    }
  }

  datatype Badge = Badge(kind: GoalKind, value: Json) {
    /** `criteria_value or {}`. */
    function Criteria(): Json {
      if Truthy(value) then value else JObject(map[])
    }
  }

  /** The selector that can tie; None when another rule decides first. */
  function NamedCategoryKey(kind: GoalKind, criteria: Json): Option<Key> {
    if !(kind.CategoryProjects? || kind.CategoryMastery?) || !criteria.JObject? then None
    else
      var name := Get(criteria, "category", JNull);
      if kind == CategoryMastery then
        if name.JString? then Some(Key(Mastery, name.text)) else None
      else if Truthy(Get(criteria, "categories", JNull)) || name.JNull? then None
      else if IsNonPositive(Get(criteria, "count", JInt(3))) then None
      else if name.JString? then Some(Key(Projects, name.text))
      else None
  }

  function KeyOf(badge: Badge): Option<Key> {
    NamedCategoryKey(badge.kind, badge.Criteria())
  }

  predicate IsKeyOf(badges: seq<Badge>, key: Key) {
    exists badge | badge in badges :: KeyOf(badge) == Some(key)
  }

  // ---------------------------------------------------------------- one compound query

  /** A row annotated with the position of its selector in the chunk. */
  datatype Tagged = Tagged(selector: nat, row: Row)

  function Bucket(rows: seq<Tagged>, i: nat): seq<Row> {
    if rows == [] then []
    else Bucket(rows[..|rows| - 1], i) + (if rows[|rows| - 1].selector == i then [rows[|rows| - 1].row] else [])
  }

  lemma {:induction false} BucketOfAppend(a: seq<Tagged>, b: seq<Tagged>, i: nat)
    ensures Bucket(a + b, i) == Bucket(a, i) + Bucket(b, i)
  {
    if b == [] {
      assert a + b == a;
    } else {
      var front := b[..|b| - 1];
      assert (a + b)[..|a + b| - 1] == a + front;
      BucketOfAppend(a, front, i);
    }
  }

  function Tag(query: seq<Row>, i: nat): (rows: seq<Tagged>)
    ensures |rows| == |query| && forall k | 0 <= k < |rows| :: rows[k] == Tagged(i, query[k])
  {
    seq(|query|, k requires 0 <= k < |query| => Tagged(i, query[k]))
  }

  lemma {:induction false} BucketOfTag(query: seq<Row>, i: nat, j: nat)
    ensures Bucket(Tag(query, i), j) == if i == j then query else []
  {
    if query != [] {
      var front := query[..|query| - 1];
      assert Tag(query, i)[..|query| - 1] == Tag(front, i);
      BucketOfTag(front, i, j);
      assert query == front + [query[|query| - 1]];
    }
  }

  /** What UNION ALL promises: every selector's rows, all of them, in any order. */
  ghost predicate IsUnion(queries: seq<seq<Row>>, rows: seq<Tagged>) {
    && (forall r | r in rows :: r.selector < |queries|)
    && forall i: nat | i < |queries| :: multiset(Bucket(rows, i)) == multiset(queries[i])
  }

  method UnionAll(queries: seq<seq<Row>>) returns (rows: seq<Tagged>)
    ensures IsUnion(queries, rows)
  {
    rows := [];
    for n := 0 to |queries|
      invariant forall r | r in rows :: r.selector < n
      invariant forall i: nat | i < n :: Bucket(rows, i) == queries[i]
    {
      var more := Tag(queries[n], n);
      forall i: nat | i <= n ensures Bucket(rows + more, i) == queries[i] {
        BucketOfAppend(rows, more, i);
        BucketOfTag(queries[n], n, i);
        if i == n {
          AbsentSelectorIsEmpty(rows, n);
        }
      }
      rows := rows + more;
    }
  }

  lemma {:induction false} AbsentSelectorIsEmpty(rows: seq<Tagged>, i: nat)
    requires forall r | r in rows :: r.selector != i
    ensures Bucket(rows, i) == []
  {
    if rows != [] {
      AbsentSelectorIsEmpty(rows[..|rows| - 1], i);
    }
  }

  /** `rows[index].append(row)` over the whole answer. */
  method Scatter(width: nat, answer: seq<Tagged>) returns (rows: seq<seq<Row>>)
    requires forall r | r in answer :: r.selector < width
    ensures |rows| == width && forall i: nat | i < width :: rows[i] == Bucket(answer, i)
  {
    rows := seq(width, _ => []);
    for n := 0 to |answer|
      invariant |rows| == width
      invariant forall i: nat | i < width :: rows[i] == Bucket(answer[..n], i)
    {
      var next := answer[n];
      assert answer[..n + 1][..n] == answer[..n];
      rows := rows[next.selector := rows[next.selector] + [next.row]];
    }
    assert answer[..|answer|] == answer;
  }

  // ---------------------------------------------------------------- the reader

  class Reader {
    const catalog: Catalog
    const batched: bool
    /** Every badge of the installation, read when a batched reader is first asked. */
    const installed: seq<Badge>
    var ambiguity: map<Key, bool>
    var prepared: bool

    constructor (catalog: Catalog, batched: bool, installed: seq<Badge>)
      ensures this.catalog == catalog && this.batched == batched && this.installed == installed
      ensures ambiguity == map[] && !prepared && Valid()
    {
      this.catalog, this.batched, this.installed := catalog, batched, installed;
      ambiguity, prepared := map[], false;
    }

    /** Every remembered verdict is the verdict of the single-name resolver. */
    ghost predicate Valid() reads this {
      forall key | key in ambiguity :: ambiguity[key] == IsAmbiguous(catalog, key)
    }

    /** The distinct selectors that have no verdict yet, in order of first appearance. */
    method NewKeys(badges: seq<Badge>) returns (keys: seq<Key>)
      ensures forall key :: key in keys <==> IsKeyOf(badges, key) && key !in ambiguity
      ensures NoRepeats(keys)
    {
      keys := [];
      for n := 0 to |badges|
        invariant forall key :: key in keys <==> IsKeyOf(badges[..n], key) && key !in ambiguity
        invariant NoRepeats(keys)
      {
        var key := KeyOf(badges[n]);
        assert badges[..n + 1] == badges[..n] + [badges[n]];
        if key.Some? && key.value !in keys && key.value !in ambiguity {
          keys := keys + [key.value];
        }
      }
      assert badges[..|badges|] == badges;
    }

    method Select(keys: seq<Key>, kind: Kind) returns (selected: seq<Key>)
      ensures forall key :: key in selected <==> key in keys && key.kind == kind
    {
      selected := [];
      for n := 0 to |keys|
        invariant forall key :: key in selected <==> key in keys[..n] && key.kind == kind
      {
        if keys[n].kind == kind {
          selected := selected + [keys[n]];
        }
      }
    }

    method Judge(key: Key, rows: seq<Row>)
      requires Valid() && multiset(rows) == multiset(Query(catalog, key))
      modifies this`ambiguity
      ensures Valid() && ambiguity.Keys == old(ambiguity.Keys) + {key}
    {
      VerdictIgnoresOrder(key.kind, rows, Query(catalog, key));
      BatchAgreesWithSingle(catalog, key);
      ambiguity := ambiguity[key := BatchVerdict(key.kind, rows)];
    }

    /** One bounded compound query, its rows scattered and judged. */
    method ResolveChunk(kind: Kind, chunk: seq<Key>)
      requires Valid() && 0 < |chunk| <= CHUNK && forall key | key in chunk :: key.kind == kind
      modifies this`ambiguity
      ensures Valid() && ambiguity.Keys == old(ambiguity.Keys) + (set key | key in chunk)
    {
      var queries := seq(|chunk|, i requires 0 <= i < |chunk| => Query(catalog, chunk[i]));
      var answer := UnionAll(queries);
      var rows := Scatter(|chunk|, answer);
      for n := 0 to |chunk|
        invariant Valid()
        invariant ambiguity.Keys == old(ambiguity.Keys) + (set key | key in chunk[..n])
      {
        assert multiset(rows[n]) == multiset(queries[n]);
        assert chunk[..n + 1] == chunk[..n] + [chunk[n]];
        Judge(chunk[n], rows[n]);
      }
      assert chunk[..|chunk|] == chunk;
    }

    method ResolveKind(kind: Kind, selected: seq<Key>)
      requires Valid() && forall key | key in selected :: key.kind == kind
      modifies this`ambiguity
      ensures Valid() && ambiguity.Keys == old(ambiguity.Keys) + (set key | key in selected)
    {
      var offset := 0;
      while offset < |selected|
        invariant 0 <= offset <= |selected|
        invariant Valid()
        invariant ambiguity.Keys == old(ambiguity.Keys) + (set key | key in selected[..offset])
      {
        var stop := if offset + CHUNK < |selected| then offset + CHUNK else |selected|;
        var chunk := selected[offset..stop];
        assert selected[..stop] == selected[..offset] + chunk;
        ResolveChunk(kind, chunk);
        offset := stop;
      }
      assert selected[..|selected|] == selected;
    }

    /** Duplicates, chunks, row order and the source bound never change a verdict. */
    method PrepareNamedCategories(badges: seq<Badge>)
      requires Valid()
      modifies this
      ensures Valid() && prepared
      ensures forall key :: key in ambiguity <==> key in old(ambiguity) || IsKeyOf(badges, key)
      ensures forall key | key in ambiguity ::
        ambiguity[key] == if key in old(ambiguity) then old(ambiguity)[key] else IsAmbiguous(catalog, key)
    {
      var keys := NewKeys(badges);
      var projects := Select(keys, Projects);
      ResolveKind(Projects, projects);
      var mastery := Select(keys, Mastery);
      ResolveKind(Mastery, mastery);
      prepared := true;
    }

    /** Batched or not, cached or not, the answer is the single-name answer. */
    method NamedCategoryGoalIsReachable(kind: GoalKind, criteria: Json) returns (reachable: bool)
      requires Valid()
      modifies this
      ensures Valid() && old(ambiguity.Keys) <= ambiguity.Keys
      ensures reachable == NamedCategoryIsReachable(catalog, kind, criteria)
    {
      var key := NamedCategoryKey(kind, criteria);
      if key.None? {
        return true;
      }
      if batched && !prepared {
        PrepareNamedCategories(installed);
      }
      if key.value !in ambiguity {
        ambiguity := ambiguity[key.value := IsAmbiguous(catalog, key.value)];
      }
      reachable := !ambiguity[key.value];
    }
  }

  predicate NamedCategoryIsReachable(catalog: Catalog, kind: GoalKind, criteria: Json) {
    var key := NamedCategoryKey(kind, criteria);
    key.None? || !IsAmbiguous(catalog, key.value)
  }
}
