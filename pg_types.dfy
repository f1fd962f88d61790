/**
 * A model of `postgres_types::Type`, the foreign type that type_helpers.rs and
 * column.rs walk: a name, a schema and a kind. The oid is left out; none of the
 * modelled code reads it.
 */
module PgTypes {

  datatype PgType = PgType(name: string, schema: string, kind: Kind)

  /**
   * `postgres_types::Kind`. `Multirange` stands for the kinds the emitters do
   * not handle (they panic with `unimplemented!`).
   */
  datatype Kind =
    | Simple
    | Pseudo
    | Enum(labels: seq<string>)
    | Array(inner: PgType)
    | Range(inner: PgType)
    | Multirange(inner: PgType)
    | Domain(inner: PgType)
    | Composite(fields: seq<Field>)

  datatype Field = Field(name: string, ty: PgType)

  /**
   * `Display for Type`: the bare name for the `public` and `pg_catalog`
   * schemas, otherwise qualified by the schema.
   */
  function Render(t: PgType): string
  {
    if t.schema == "public" || t.schema == "pg_catalog" then t.name else t.schema + "." + t.name
  }

  /** No node of `t` has a kind the emitters leave unimplemented. */
  predicate Handled(t: PgType)
  {
    match t.kind
    case Simple => true
    case Pseudo => true
    case Enum(_) => true
    case Array(inner) => Handled(inner)
    case Range(inner) => Handled(inner)
    case Multirange(_) => false
    case Domain(inner) => Handled(inner)
    case Composite(fields) => forall i | 0 <= i < |fields| :: Handled(fields[i].ty)
  }

  /** The kinds that need a statement of their own before they can be used. */
  predicate IsDefining(t: PgType)
  {
    t.kind.Domain? || t.kind.Enum? || t.kind.Composite?
  }

  /** The types `t` refers to directly. */
  function Children(t: PgType): (cs: seq<PgType>)
    ensures forall i | 0 <= i < |cs| :: cs[i] < t
  {
    match t.kind
    case Array(inner) => [inner]
    case Range(inner) => [inner]
    case Multirange(inner) => [inner]
    case Domain(inner) => [inner]
    case Composite(fields) => seq(|fields|, i requires 0 <= i < |fields| => fields[i].ty)
    case _ => []
  }

  /** `n` is a node of the type tree rooted at `t`. */
  ghost predicate Reaches(t: PgType, n: PgType)
    decreases t
  {
    n == t || exists i | 0 <= i < |Children(t)| :: Reaches(Children(t)[i], n)
  }

  /** The number of Domain, Enum and Composite nodes of `t`, repeats counted. */
  function DefiningCount(t: PgType): nat
    decreases t
  {
    match t.kind
    case Simple => 0
    case Pseudo => 0
    case Enum(_) => 1
    case Array(inner) => DefiningCount(inner)
    case Range(inner) => DefiningCount(inner)
    case Multirange(inner) => DefiningCount(inner)
    case Domain(inner) => DefiningCount(inner) + 1
    case Composite(fields) => FieldsDefiningCount(fields) + 1
  }

  function FieldsDefiningCount(fields: seq<Field>): nat
    decreases fields
  {
    if fields == [] then 0 else DefiningCount(fields[0].ty) + FieldsDefiningCount(fields[1..])
  }

  /** Built-in types used by the examples. */
  const Int2 := PgType("int2", "pg_catalog", Simple)
}
