/** Category selectors of badge goals: one name at a time, and many names in bounded batches. */
module CategoryNames {
  import opened Options
  import opened Json

  type Pk = nat

  /** Published authoring of one object; `authored` is the exact provenance marker. */
  datatype Override = Override(model: string, target: Pk, lookup: Json, authored: bool)

  datatype Category = Category(pk: Pk, name: string)

  /**
   * `categories` and `overrides` are in primary-key order. `same` is the database's case-insensitive match
   * and `text` its text reading of a JSON value.
   */
  datatype Catalog = Catalog(
    categories: seq<Category>,
    overrides: seq<Override>,
    same: (string, string) -> bool,
    text: Json -> string)

  const CATEGORY := "achievements.skillcategory"
  const SOURCE_LIMIT := 1001
  const CHUNK := 100

  datatype Kind = Projects | Mastery
  datatype Key = Key(kind: Kind, name: string)

  // ---------------------------------------------------------------- the single-name resolver

  function Pks(c: Catalog): set<Pk> {
    set category | category in c.categories :: category.pk
  }

  function Current(c: Catalog, name: string): set<Pk> {
    set category | category in c.categories && c.same(category.name, name) :: category.pk
  }

  predicate IsSource(c: Catalog, name: string, o: Override) {
    && o.model == CATEGORY && o.authored
    && o.lookup.JObject? && "name" in o.lookup.fields && c.same(c.text(o.lookup.fields["name"]), name)
    && o.target !in Current(c, name)
  }

  function Sources(c: Catalog, name: string, overrides: seq<Override>): seq<Override> {
    if overrides == [] then []
    else (if IsSource(c, name, overrides[0]) then [overrides[0]] else []) + Sources(c, name, overrides[1..])
  }

  function Take<T>(s: seq<T>, n: nat): seq<T> {
    if |s| <= n then s else s[..n]
  }

  predicate HasSourceShape(lookup: Json) {
    lookup.JObject? && lookup.fields.Keys == {"name"} && lookup.fields["name"].JString?
  }

  function RetainedObjects(sources: seq<Override>): set<Pk> {
    set o | o in sources && HasSourceShape(o.lookup) :: o.target
  }

  datatype Resolution = Resolution(ids: set<Pk>, ambiguous: bool)

  function ProjectResolution(c: Catalog, name: string): Resolution {
    var sources := Take(Sources(c, name, c.overrides), SOURCE_LIMIT);
    if |sources| > 1000 then Resolution({}, true)
    else
      var retained := RetainedObjects(sources) * Pks(c);
      if retained == {} then Resolution(Current(c, name), false)
      else if |retained| == 1 && Current(c, name) == {} then Resolution(retained, false)
      else Resolution({}, true)
  }

  predicate IsExactSource(name: string, o: Override) {
    o.model == CATEGORY && o.authored && o.lookup == JObject(map["name" := JString(name)])
  }

  predicate IsExactMatch(c: Catalog, name: string, category: Category) {
    category.name == name || exists o | o in c.overrides :: IsExactSource(name, o) && o.target == category.pk
  }

  function Matching(c: Catalog, name: string, categories: seq<Category>): seq<Category> {
    if categories == [] then []
    else (if IsExactMatch(c, name, categories[0]) then [categories[0]] else []) + Matching(c, name, categories[1..])
  }

  /** `source_identity_matches` for a category: at most the first two exact matches. */
  function ExactMatches(c: Catalog, name: string): seq<Category> {
    Take(Matching(c, name, c.categories), 2)
  }

  /** `resolve_source_identity` for a category: the one exact match, never a tie. */
  function MasteryCategory(c: Catalog, name: string): Option<Pk> {
    var matches := ExactMatches(c, name);
    if |matches| == 1 then Some(matches[0].pk) else None
  }

  predicate IsAmbiguous(c: Catalog, key: Key) {
    match key.kind
    case Projects => ProjectResolution(c, key.name).ambiguous
    case Mastery => |ExactMatches(c, key.name)| > 1
  }

  // ---------------------------------------------------------------- one batch

  /** One annotated row of a batched query. */
  datatype Row = Row(target: Pk, lookup: Json, targetExists: bool, currentExists: bool)

  function RowOf(c: Catalog, name: string, o: Override): Row {
    Row(o.target, o.lookup, o.target in Pks(c), Current(c, name) != {})
  }

  function RowsOf(c: Catalog, name: string, sources: seq<Override>): (r: seq<Row>)
    ensures |r| == |sources| && forall i | 0 <= i < |r| :: r[i] == RowOf(c, name, sources[i])
  {
    seq(|sources|, i requires 0 <= i < |sources| => RowOf(c, name, sources[i]))
  }

  function MasteryRows(matches: seq<Category>): seq<Row> {
    seq(|matches|, i requires 0 <= i < |matches| => Row(matches[i].pk, JNull, true, true))
  }

  /** The rows a batch reads for one key: the first two matches, or the first 1001 sources. */
  function Query(c: Catalog, key: Key): seq<Row> {
    match key.kind
    case Projects => RowsOf(c, key.name, Take(Sources(c, key.name, c.overrides), SOURCE_LIMIT))
    case Mastery => MasteryRows(ExactMatches(c, key.name))
  }

  function RetainedRows(rows: seq<Row>): set<Pk> {
    set row | row in rows && row.targetExists && HasSourceShape(row.lookup) :: row.target
  }

  predicate BatchVerdict(kind: Kind, rows: seq<Row>) {
    match kind
    case Mastery => |rows| > 1
    case Projects =>
      var retained := RetainedRows(rows);
      |rows| > 1000 || |retained| > 1 || (retained != {} && exists row | row in rows :: row.currentExists)
  }

  /** The verdict does not depend on the order in which the database returns the rows. */
  lemma VerdictIgnoresOrder(kind: Kind, a: seq<Row>, b: seq<Row>)
    requires multiset(a) == multiset(b)
    ensures BatchVerdict(kind, a) == BatchVerdict(kind, b)
  {
    assert |a| == |multiset(a)| && |b| == |multiset(b)|;
    assert forall row :: row in a <==> row in multiset(a);
    assert forall row :: row in b <==> row in multiset(b);
    assert RetainedRows(a) == RetainedRows(b);
  }

  /** For every catalog and key, the batched verdict is the single-name verdict. */
  lemma BatchAgreesWithSingle(c: Catalog, key: Key)
    ensures BatchVerdict(key.kind, Query(c, key)) == IsAmbiguous(c, key)
  {
    if key.kind == Projects {
      var sources := Take(Sources(c, key.name, c.overrides), SOURCE_LIMIT);
      RetainedSetsAgree(c, key.name, sources);
      if RetainedRows(RowsOf(c, key.name, sources)) != {} {
        CurrentIsShared(c, key.name, sources);
      }
    }
  }

  lemma RetainedSetsAgree(c: Catalog, name: string, sources: seq<Override>)
    ensures RetainedRows(RowsOf(c, name, sources)) == RetainedObjects(sources) * Pks(c)
  {
  }

  lemma CurrentIsShared(c: Catalog, name: string, sources: seq<Override>)
    requires RetainedRows(RowsOf(c, name, sources)) != {}
    ensures (exists row | row in RowsOf(c, name, sources) :: row.currentExists) <==> Current(c, name) != {}
  {
  }
}
