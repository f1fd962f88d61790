/**
 * type_helpers.rs: the `CREATE TYPE` / `CREATE DOMAIN` statements a type needs,
 * collected by a post-order walk (dependencies first), and the helpers that
 * build composite and array types.
 */
module TypeHelpers {
  import opened Strings
  import opened PgTypes

  /** A type's name paired with the statement that creates it. */
  datatype ObjectAndCreateSql = ObjectAndCreateSql(name: string, createSql: string)

  // ---------------------------------------------------------------------------
  // Statement text (shared with column.rs's `type_definition`)
  // ---------------------------------------------------------------------------

  /** The labels of an enum, each in single quotes, separated by `", "`. */
  function EnumLabels(labels: seq<string>): string
  {
    Join(seq(|labels|, i requires 0 <= i < |labels| => "'" + labels[i] + "'"), ", ")
  }

  function FieldDecl(f: Field): string
  {
    f.name + " " + Render(f.ty)
  }

  /** `<field> <type>` for every field, separated by `", "`. */
  function FieldList(fields: seq<Field>): string
  {
    Join(seq(|fields|, i requires 0 <= i < |fields| => FieldDecl(fields[i])), ", ")
  }

  /** The statement that creates a Domain, Enum or Composite node by itself. */
  function CreateStatement(t: PgType): string
    requires IsDefining(t)
  {
    match t.kind
    case Domain(inner) => "CREATE DOMAIN \"" + Render(t) + "\" AS " + Render(inner)
    case Enum(labels) => "CREATE TYPE \"" + Render(t) + "\" AS ENUM (" + EnumLabels(labels) + ")"
    case Composite(fields) => "CREATE TYPE " + t.name + " AS (" + FieldList(fields) + ")"
  }

  /** The entry a Domain, Enum or Composite node contributes: its name and statement. */
  function Own(t: PgType): ObjectAndCreateSql
    requires IsDefining(t)
  {
    ObjectAndCreateSql(t.name, CreateStatement(t))
  }

  // ---------------------------------------------------------------------------
  // ObjectAndCreateSql::from_type
  // ---------------------------------------------------------------------------

  /**
   * `ObjectAndCreateSql::from_type`: one entry per Domain, Enum and Composite
   * node of `t`, repeats included, each node's own entry last after those of
   * the types it uses.
   */
  function FromType(t: PgType): (r: seq<ObjectAndCreateSql>)
    requires Handled(t)
    ensures |r| == DefiningCount(t)
    ensures IsDefining(t) ==> |r| > 0 && r[|r| - 1] == Own(t)
    decreases t
  {
    match t.kind
    case Simple => []
    case Pseudo => []
    case Array(inner) => FromType(inner)
    case Range(inner) => FromType(inner)
    case Domain(inner) => FromType(inner) + [Own(t)]
    case Enum(_) => [Own(t)]
    case Composite(fields) => FieldsFromType(fields) + [Own(t)]
  }

  /** The entries of every field's type, in field order. */
  function FieldsFromType(fields: seq<Field>): (r: seq<ObjectAndCreateSql>)
    requires forall i | 0 <= i < |fields| :: Handled(fields[i].ty)
    ensures |r| == FieldsDefiningCount(fields)
    decreases fields
  {
    if fields == [] then [] else FromType(fields[0].ty) + FieldsFromType(fields[1..])
  }

  /**
   * What each kind contributes: Simple and Pseudo nothing; Array and Range
   * exactly their element's entries; a Domain its inner type's entries and then
   * one entry named after itself; an Enum exactly one entry; a Composite its
   * fields' entries and then one entry whose statement uses the unqualified name.
   */
  lemma FromTypeByKind(t: PgType)
    requires Handled(t)
    ensures t.kind.Simple? || t.kind.Pseudo? ==> FromType(t) == []
    ensures t.kind.Array? || t.kind.Range? ==> FromType(t) == FromType(t.kind.inner)
    ensures t.kind.Domain? ==>
      var r := FromType(t); var e := r[|r| - 1];
      r == FromType(t.kind.inner) + [e] && e.name == t.name
      && e.createSql == "CREATE DOMAIN \"" + Render(t) + "\" AS " + Render(t.kind.inner)
    ensures t.kind.Enum? ==>
      FromType(t) == [ObjectAndCreateSql(t.name, "CREATE TYPE \"" + Render(t) + "\" AS ENUM (" + EnumLabels(t.kind.labels) + ")")]
    ensures t.kind.Composite? ==>
      FromType(t) == FieldsFromType(t.kind.fields)
        + [ObjectAndCreateSql(t.name, "CREATE TYPE " + t.name + " AS (" + FieldList(t.kind.fields) + ")")]
  {
  }

  lemma {:induction false} FieldsFromTypeAppend(a: seq<Field>, b: seq<Field>)
    requires forall i | 0 <= i < |a| :: Handled(a[i].ty)
    requires forall i | 0 <= i < |b| :: Handled(b[i].ty)
    ensures forall i | 0 <= i < |a + b| :: Handled((a + b)[i].ty)
    ensures FieldsFromType(a + b) == FieldsFromType(a) + FieldsFromType(b)
  {
    if a != [] {
      assert (a + b)[1..] == a[1..] + b;
      FieldsFromTypeAppend(a[1..], b);
    } else {
      assert a + b == b;
    }
  }

  /**
   * A composite's statements: the entries of its fields before field `k`, then
   * exactly those of field `k`'s type, then the later fields', then its own.
   */
  lemma CompositeFieldOrder(t: PgType, k: int)
    requires Handled(t) && t.kind.Composite? && 0 <= k < |t.kind.fields|
    ensures var fs := t.kind.fields;
      FromType(t) == FieldsFromType(fs[..k]) + FromType(fs[k].ty) + FieldsFromType(fs[k + 1..]) + [Own(t)]
  {
    var fs := t.kind.fields;
    var pre, rest, post := fs[..k], fs[k..], fs[k + 1..];
    assert FieldsFromType(rest) == FromType(fs[k].ty) + FieldsFromType(post) by {
      assert rest[0] == fs[k] && rest[1..] == post;
    }
    assert FieldsFromType(fs) == FieldsFromType(pre) + FieldsFromType(rest) by {
      assert fs == pre + rest;
      FieldsFromTypeAppend(pre, rest);
    }
    assert FromType(t) == FieldsFromType(fs) + [Own(t)];
    AppendAssoc(FieldsFromType(pre), FromType(fs[k].ty), FieldsFromType(post));
  }

  lemma AppendAssoc<T>(a: seq<T>, b: seq<T>, c: seq<T>)
    ensures a + (b + c) == a + b + c
  {
  }

  // ---------------------------------------------------------------------------
  // Dependencies come first
  // ---------------------------------------------------------------------------

  /**
   * Entry `i` of `defs` closes a block that is exactly the complete statement
   * list of the Domain/Enum/Composite node `n`: `n`'s own entry at `i`, and the
   * entries of every type `n` depends on immediately before it.
   */
  ghost predicate DefinedAt(defs: seq<ObjectAndCreateSql>, i: int, n: PgType)
  {
    && 0 <= i < |defs|
    && Handled(n)
    && IsDefining(n)
    && |FromType(n)| <= i + 1
    && defs[i + 1 - |FromType(n)|..i + 1] == FromType(n)
  }

  ghost predicate HasDefinitionBlock(root: PgType, defs: seq<ObjectAndCreateSql>, i: int)
  {
    exists n :: Reaches(root, n) && DefinedAt(defs, i, n)
  }

  /** Every entry of `defs` defines a node of `root` and is preceded by all that node needs. */
  ghost predicate DependenciesFirst(root: PgType, defs: seq<ObjectAndCreateSql>)
  {
    forall i | 0 <= i < |defs| :: HasDefinitionBlock(root, defs, i)
  }

  lemma DependenciesFirstAppend(root: PgType, a: seq<ObjectAndCreateSql>, b: seq<ObjectAndCreateSql>)
    requires DependenciesFirst(root, a) && DependenciesFirst(root, b)
    ensures DependenciesFirst(root, a + b)
  {
    forall i | 0 <= i < |a + b| ensures HasDefinitionBlock(root, a + b, i) {
      if i < |a| {
        BlockInLeft(root, a, b, i);
      } else {
        BlockInRight(root, a, b, i);
      }
    }
  }

  lemma BlockInLeft(root: PgType, a: seq<ObjectAndCreateSql>, b: seq<ObjectAndCreateSql>, i: int)
    requires 0 <= i < |a| && HasDefinitionBlock(root, a, i)
    ensures HasDefinitionBlock(root, a + b, i)
  {
    var n :| Reaches(root, n) && DefinedAt(a, i, n);
    assert DefinedAt(a + b, i, n) by {
      var lo := i + 1 - |FromType(n)|;
      SliceOfAppendLeft(a, b, lo, i + 1);
    }
  }

  lemma BlockInRight(root: PgType, a: seq<ObjectAndCreateSql>, b: seq<ObjectAndCreateSql>, i: int)
    requires |a| <= i < |a| + |b| && HasDefinitionBlock(root, b, i - |a|)
    ensures HasDefinitionBlock(root, a + b, i)
  {
    var n :| Reaches(root, n) && DefinedAt(b, i - |a|, n);
    assert DefinedAt(a + b, i, n) by {
      var lo := i + 1 - |FromType(n)|;
      SliceOfAppendRight(a, b, lo, i + 1);
    }
  }

  lemma SliceOfAppendLeft<T>(a: seq<T>, b: seq<T>, lo: int, hi: int)
    requires 0 <= lo <= hi <= |a|
    ensures (a + b)[lo..hi] == a[lo..hi]
  {
  }

  lemma SliceOfAppendRight<T>(a: seq<T>, b: seq<T>, lo: int, hi: int)
    requires |a| <= lo <= hi <= |a| + |b|
    ensures (a + b)[lo..hi] == b[lo - |a|..hi - |a|]
  {
  }

  lemma DependenciesFirstLift(parent: PgType, k: int, defs: seq<ObjectAndCreateSql>)
    requires 0 <= k < |Children(parent)|
    requires DependenciesFirst(Children(parent)[k], defs)
    ensures DependenciesFirst(parent, defs)
  {
    forall i | 0 <= i < |defs| ensures HasDefinitionBlock(parent, defs, i) {
      assert HasDefinitionBlock(Children(parent)[k], defs, i);
      var n :| Reaches(Children(parent)[k], n) && DefinedAt(defs, i, n);
      assert Reaches(parent, n);
    }
  }

  lemma DependenciesFirstOwn(t: PgType, prefix: seq<ObjectAndCreateSql>)
    requires Handled(t) && IsDefining(t)
    requires FromType(t) == prefix + [Own(t)]
    requires DependenciesFirst(t, prefix)
    ensures DependenciesFirst(t, FromType(t))
  {
    var defs := FromType(t);
    forall i | 0 <= i < |defs| ensures HasDefinitionBlock(t, defs, i) {
      if i < |prefix| {
        BlockInLeft(t, prefix, [Own(t)], i);
      } else {
        OwnBlockLast(t);
      }
    }
  }

  /** The last entry of a defining type's list closes the block of the type itself. */
  lemma OwnBlockLast(t: PgType)
    requires Handled(t) && IsDefining(t)
    ensures HasDefinitionBlock(t, FromType(t), |FromType(t)| - 1)
  {
    var defs := FromType(t);
    assert defs[0..|defs|] == defs;
    assert DefinedAt(defs, |defs| - 1, t);
  }

  /**
   * The emitter's ordering guarantee: each entry of `FromType(t)` belongs to a
   * node of `t` and comes right after every statement that node depends on.
   */
  lemma {:induction false} FromTypeDependenciesFirst(t: PgType)
    requires Handled(t)
    ensures DependenciesFirst(t, FromType(t))
    decreases t, |Children(t)| + 1
  {
    match t.kind
    case Simple =>
    case Pseudo =>
    case Array(inner) =>
      FromTypeDependenciesFirst(inner);
      DependenciesFirstLift(t, 0, FromType(inner));
    case Range(inner) =>
      FromTypeDependenciesFirst(inner);
      DependenciesFirstLift(t, 0, FromType(inner));
    case Domain(inner) =>
      FromTypeDependenciesFirst(inner);
      DependenciesFirstLift(t, 0, FromType(inner));
      DependenciesFirstOwn(t, FromType(inner));
    case Enum(_) =>
      assert FromType(t) == [] + [Own(t)];
      DependenciesFirstOwn(t, []);
    case Composite(fields) =>
      FieldsDependenciesFirst(t, fields, 0);
      assert fields[0..] == fields;
      DependenciesFirstOwn(t, FieldsFromType(fields));
  }

  lemma {:induction false} FieldsDependenciesFirst(t: PgType, fields: seq<Field>, k: nat)
    requires Handled(t) && t.kind.Composite? && fields == t.kind.fields && k <= |fields|
    ensures DependenciesFirst(t, FieldsFromType(fields[k..]))
    decreases t, |fields| - k
  {
    if k < |fields| {
      var f := fields[k].ty;
      assert Children(t)[k] == f;
      FromTypeDependenciesFirst(f);
      DependenciesFirstLift(t, k, FromType(f));
      FieldsDependenciesFirst(t, fields, k + 1);
      assert fields[k..][1..] == fields[k + 1..];
      DependenciesFirstAppend(t, FromType(f), FieldsFromType(fields[k + 1..]));
    }
  }

  /**
   * `from_type` does not deduplicate: a composite with two fields of the same
   * composite type lists that type's statement twice.
   */
  lemma FromTypeKeepsRepeats()
    ensures var defs := FromType(Segment);
      |defs| == 3 && defs[0] == defs[1] == Own(Point2d) && defs[2] == Own(Segment)
  {
    var point := Point2d;
    var segment := Segment;
    assert FieldsFromType(point.kind.fields[1..]) == [];
    assert FieldsFromType(point.kind.fields) == [];
    assert FromType(point) == [Own(point)];
    assert FieldsFromType(segment.kind.fields[1..]) == [Own(point)];
    assert FieldsFromType(segment.kind.fields) == [Own(point), Own(point)];
  }

  /** A composite of two `int2` fields, and one that uses it twice. */
  const Point2d := StructType("point2d", [("x", Int2), ("y", Int2)])
  const Segment := StructType("segment", [("a", Point2d), ("b", Point2d)])

  // ---------------------------------------------------------------------------
  // struct_type and array_type
  // ---------------------------------------------------------------------------

  /** `struct_type`: a composite in the `public` schema with the given fields in order. */
  function StructType(name: string, fields: seq<(string, PgType)>): (t: PgType)
    ensures t.name == name && Render(t) == name && t.kind.Composite?
    ensures |t.kind.fields| == |fields|
    ensures forall i | 0 <= i < |fields| :: t.kind.fields[i] == Field(fields[i].0, fields[i].1)
  {
    PgType(name, "public", Composite(seq(|fields|, i requires 0 <= i < |fields| => Field(fields[i].0, fields[i].1))))
  }

  /** A struct type's statement list ends with its own `CREATE TYPE <name> AS (...)`. */
  lemma StructTypeDefinition(name: string, fields: seq<(string, PgType)>)
    requires forall i | 0 <= i < |fields| :: Handled(fields[i].1)
    ensures Handled(StructType(name, fields))
    ensures var defs := FromType(StructType(name, fields));
      |defs| > 0 && defs[|defs| - 1].name == name
      && defs[|defs| - 1].createSql == "CREATE TYPE " + name + " AS (" + FieldList(StructType(name, fields).kind.fields) + ")"
  {
  }

  /** `array_type`: the element type wrapped as a one-dimensional array named with an `s`. */
  function ArrayType(of: PgType): (t: PgType)
    ensures t.kind == Array(of) && Children(t) == [of]
  {
    PgType(of.name + "s", "public", Array(of))
  }

  /** An array type is named after its element, plural, and needs only its element's statements. */
  lemma ArrayTypeTransparent(of: PgType)
    requires Handled(of)
    ensures Handled(ArrayType(of))
    ensures Render(ArrayType(of)) == of.name + "s"
    ensures FromType(ArrayType(of)) == FromType(of)
  {
  }
}
