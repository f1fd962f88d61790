/**
 * column.rs: the column builder, the finished column, its definition fragment
 * for `CREATE TABLE`, and the type statements a column's type needs.
 *
 * A column is generic in the representation of its type: tables render
 * `Types.DbType` names, while `type_create_sql` walks a `PgTypes.PgType`.
 */
module Columns {
  import opened Wrappers
  import opened Strings
  import Types
  import opened PgTypes
  import opened TypeHelpers

  /** A finished column. */
  datatype Column<T> = Column(
    name: string,
    dbType: T,
    nullable: bool,
    unique: bool,
    primaryKey: bool,
    foreignKey: Option<(string, string)>)
  {
    /** What the builder guarantees of every column it finishes: a primary key is unique. */
    predicate Valid()
    {
      primaryKey ==> unique
    }

    function IsNullable(): bool
    {
      nullable
    }

    /** `is_unique()` as written: it returns the nullable flag. */
    function IsUniqueAsWritten(): bool
    {
      nullable
    }

    /** `is_unique()` as evidently intended: the uniqueness flag. */
    function IsUnique(): bool
    {
      unique
    }

    function IsPrimaryKey(): bool
    {
      primaryKey
    }

    function ForeignKey(): Option<(string, string)>
    {
      foreignKey
    }
  }

  /** `Column::new`: not nullable, not unique, no primary key, no foreign key. */
  function NewColumn<T>(name: string, dbType: T): (c: Column<T>)
    ensures c.Valid() && c.name == name && c.dbType == dbType
    ensures !c.IsNullable() && !c.IsUnique() && !c.IsPrimaryKey() && c.ForeignKey() == None
  {
    Column(name, dbType, false, false, false, None)
  }

  /** The builder's getter reports the nullable flag where the uniqueness flag is meant. */
  lemma IsUniqueAsWrittenReportsNullable()
    ensures var c := Column("buy_id", Types.Uuid, false, true, true, None);
      c.Valid() && c.IsPrimaryKey() && !c.IsUniqueAsWritten() && c.IsUnique()
  {
  }

  /** With the corrected getter, a valid primary-key column reports itself unique. */
  lemma PrimaryKeyIsUnique<T>(c: Column<T>)
    requires c.Valid()
    ensures c.IsPrimaryKey() ==> c.IsUnique()
  {
  }

  /**
   * `ColumnBuilder::new(name, ty).primary_key().finish()`: the column is a
   * unique primary key, which the corrected getter reports and the getter as
   * written does not.
   */
  method BuildPrimaryKey<T>(name: string, dbType: T) returns (c: Column<T>)
    ensures c == NewColumn(name, dbType).(unique := true, primaryKey := true)
    ensures c.IsPrimaryKey() && c.IsUnique() && !c.IsUniqueAsWritten()
  {
    var b := new ColumnBuilder(name, dbType);
    b.PrimaryKey();
    c := b.Finish();
  }

  // ---------------------------------------------------------------------------
  // ColumnBuilder
  // ---------------------------------------------------------------------------

  /** `ColumnBuilder`: accumulates a column's flags one call at a time. */
  class ColumnBuilder<T> {
    var name: string
    var dbType: T
    var nullable: bool
    var unique: bool
    var primaryKey: bool
    var foreignKey: Option<(string, string)>

    /** The column the builder would finish now. */
    function Current(): Column<T>
      reads this
    {
      Column(name, dbType, nullable, unique, primaryKey, foreignKey)
    }

    ghost predicate Valid()
      reads this
    {
      Current().Valid()
    }

    /** `ColumnBuilder::new`: starts from `Column::new`. */
    constructor (name: string, dbType: T)
      ensures Valid() && Current() == NewColumn(name, dbType)
    {
      this.name := name;
      this.dbType := dbType;
      nullable := false;
      unique := false;
      primaryKey := false;
      foreignKey := None;
    }

    method Nullable()
      requires Valid()
      modifies this
      ensures Valid() && Current() == old(Current()).(nullable := true)
    {
      nullable := true;
    }

    method Unique()
      requires Valid()
      modifies this
      ensures Valid() && Current() == old(Current()).(unique := true)
    {
      unique := true;
    }

    /** A primary key is also unique. */
    method PrimaryKey()
      requires Valid()
      modifies this
      ensures Valid() && Current() == old(Current()).(primaryKey := true, unique := true)
    {
      primaryKey := true;
      unique := true;
    }

    method ForeignKey(table: string, column: string)
      requires Valid()
      modifies this
      ensures Valid() && Current() == old(Current()).(foreignKey := Some((table, column)))
    {
      foreignKey := Some((table, column));
    }

    /** `finish()`: every field copied into the column unchanged. */
    method Finish() returns (c: Column<T>)
      requires Valid()
      ensures c.Valid()
      ensures c.name == name && c.dbType == dbType && c.IsNullable() == nullable
      ensures c.IsUnique() == unique && c.IsPrimaryKey() == primaryKey && c.ForeignKey() == foreignKey
    {
      c := Column(name, dbType, nullable, unique, primaryKey, foreignKey);
    }
  }

  // ---------------------------------------------------------------------------
  // Display for Column
  // ---------------------------------------------------------------------------

  function ReferenceText(foreignKey: Option<(string, string)>): string
  {
    match foreignKey
    case Some((table, column)) => " REFERENCES " + table + "(" + column + ")"
    case None => ""
  }

  /** The flags part of a column definition, in its fixed order. */
  function Modifiers<T>(c: Column<T>): string
  {
    (if c.nullable then " NULL" else " NOT NULL")
    + (if c.unique then " UNIQUE" else "")
    + (if c.primaryKey then " PRIMARY KEY" else "")
    + ReferenceText(c.foreignKey)
  }

  /** `Display for Column`: `<name> <type>` and then the flags. */
  function Definition<T>(c: Column<T>, typeName: T -> string): string
  {
    c.name + " " + typeName(c.dbType) + Modifiers(c)
  }

  /** The flags read back from a definition's tail. */
  datatype Flags = Flags(nullable: bool, unique: bool, primaryKey: bool, reference: Option<string>)

  function StripPrefix(p: string, s: string): Option<string>
  {
    if |p| <= |s| && s[..|p|] == p then Some(s[|p|..]) else None
  }

  /** Reads ` NULL` or ` NOT NULL` off the front. */
  function ParseNullability(s: string): Option<(bool, string)>
  {
    match StripPrefix(" NULL", s)
    case Some(rest) => Some((true, rest))
    case None =>
      match StripPrefix(" NOT NULL", s)
      case Some(rest) => Some((false, rest))
      case None => None
  }

  /** Reads the optional keyword `p` off the front. */
  function ParseFlag(p: string, s: string): (bool, string)
  {
    match StripPrefix(p, s)
    case Some(rest) => (true, rest)
    case None => (false, s)
  }

  /** Reads the optional ` REFERENCES <target>` that ends the definition. */
  function ParseReference(s: string): Option<Option<string>>
  {
    if s == "" then Some(None)
    else
      match StripPrefix(" REFERENCES ", s)
      case Some(target) => Some(Some(target))
      case None => None
  }

  function ParseModifiers(s: string): Option<Flags>
  {
    match ParseNullability(s)
    case None => None
    case Some((nullable, rest1)) =>
      var (unique, rest2) := ParseFlag(" UNIQUE", rest1);
      var (primaryKey, rest3) := ParseFlag(" PRIMARY KEY", rest2);
      match ParseReference(rest3)
      case None => None
      case Some(reference) => Some(Flags(nullable, unique, primaryKey, reference))
  }

  function ReferenceTarget(foreignKey: Option<(string, string)>): Option<string>
  {
    match foreignKey
    case Some((table, column)) => Some(table + "(" + column + ")")
    case None => None
  }

  lemma StripConcat(p: string, s: string)
    ensures StripPrefix(p, p + s) == Some(s)
  {
    assert (p + s)[..|p|] == p;
  }

  lemma StripMismatch(p: string, s: string, k: int)
    requires 0 <= k < |p| && k < |s| && p[k] != s[k]
    ensures StripPrefix(p, s) == None
  {
    if |p| <= |s| {
      assert s[..|p|][k] == s[k];
    }
  }

  lemma NullabilityRoundTrip(nullable: bool, rest: string)
    ensures ParseNullability((if nullable then " NULL" else " NOT NULL") + rest) == Some((nullable, rest))
  {
    if nullable {
      StripConcat(" NULL", rest);
    } else {
      var s := " NOT NULL" + rest;
      StripMismatch(" NULL", s, 2);
      StripConcat(" NOT NULL", rest);
    }
  }

  lemma FlagRoundTrip(p: string, present: bool, rest: string)
    requires |p| >= 2 && (rest == "" || (|rest| >= 2 && rest[1] != p[1]))
    ensures ParseFlag(p, (if present then p else "") + rest) == (present, rest)
  {
    if present {
      StripConcat(p, rest);
    } else {
      assert "" + rest == rest;
      if rest != "" {
        StripMismatch(p, rest, 1);
      }
    }
  }

  lemma ReferenceRoundTrip(foreignKey: Option<(string, string)>)
    ensures ParseReference(ReferenceText(foreignKey)) == Some(ReferenceTarget(foreignKey))
    ensures ReferenceText(foreignKey) == "" || (|ReferenceText(foreignKey)| >= 2 && ReferenceText(foreignKey)[1] == 'R')
  {
    if foreignKey.Some? {
      var (table, column) := foreignKey.value;
      var target := table + "(" + column + ")";
      assert ReferenceText(foreignKey) == " REFERENCES " + target;
      StripConcat(" REFERENCES ", target);
    }
  }

  /** What follows the uniqueness flag in a definition's tail. */
  function KeyTail<T>(c: Column<T>): string
  {
    (if c.primaryKey then " PRIMARY KEY" else "") + ReferenceText(c.foreignKey)
  }

  /** What follows the nullability in a definition's tail. */
  function FlagTail<T>(c: Column<T>): string
  {
    (if c.unique then " UNIQUE" else "") + KeyTail(c)
  }

  lemma NullabilityStage<T>(c: Column<T>)
    ensures ParseNullability(Modifiers(c)) == Some((c.nullable, FlagTail(c)))
  {
    assert Modifiers(c) == (if c.nullable then " NULL" else " NOT NULL") + FlagTail(c);
    NullabilityRoundTrip(c.nullable, FlagTail(c));
  }

  lemma UniqueStage<T>(c: Column<T>)
    ensures ParseFlag(" UNIQUE", FlagTail(c)) == (c.unique, KeyTail(c))
  {
    var rest := KeyTail(c);
    assert rest == "" || (|rest| >= 2 && rest[1] != 'U') by {
      ReferenceRoundTrip(c.foreignKey);
      if c.primaryKey {
        assert rest[1] == 'P';
      } else {
        assert rest == ReferenceText(c.foreignKey);
      }
    }
    FlagRoundTrip(" UNIQUE", c.unique, rest);
  }

  lemma KeyStage<T>(c: Column<T>)
    ensures ParseFlag(" PRIMARY KEY", KeyTail(c)) == (c.primaryKey, ReferenceText(c.foreignKey))
  {
    ReferenceRoundTrip(c.foreignKey);
    FlagRoundTrip(" PRIMARY KEY", c.primaryKey, ReferenceText(c.foreignKey));
  }

  /**
   * The flags are rendered in a fixed order and read back exactly: the
   * definition's tail determines nullability, uniqueness, the primary key and
   * the referenced `table(column)`.
   */
  lemma ModifiersRoundTrip<T>(c: Column<T>)
    ensures ParseModifiers(Modifiers(c))
      == Some(Flags(c.nullable, c.unique, c.primaryKey, ReferenceTarget(c.foreignKey)))
  {
    NullabilityStage(c);
    UniqueStage(c);
    KeyStage(c);
    ReferenceRoundTrip(c.foreignKey);
  }

  /**
   * A column definition is `<name> <type>` followed by a tail from which the
   * column's flags and its foreign key are read back exactly.
   */
  lemma DefinitionReadsBack<T>(c: Column<T>, typeName: T -> string)
    ensures var head := c.name + " " + typeName(c.dbType);
      StripPrefix(head, Definition(c, typeName)) == Some(Modifiers(c))
      && ParseModifiers(Modifiers(c))
         == Some(Flags(c.nullable, c.unique, c.primaryKey, ReferenceTarget(c.foreignKey)))
  {
    StripConcat(c.name + " " + typeName(c.dbType), Modifiers(c));
    ModifiersRoundTrip(c);
  }

  // ---------------------------------------------------------------------------
  // Escaping a value for a column
  // ---------------------------------------------------------------------------

  /** A value the column's type does not accept, reported with the column's name. */
  datatype ColumnError = ColumnError(column: string, value: Types.Value)

  /**
   * The per-column `escape_val` that `insert_sql` calls: a nullable column goes
   * through `escape_nullable_val`, any other column through `escape_val`.
   */
  function EscapeColumnVal(c: Column<Types.DbType>, v: Types.Value): (r: Result<string, ColumnError>)
    requires Types.Implemented(c.dbType)
    ensures r.Err? ==> r.error == ColumnError(c.name, v)
    ensures !c.nullable ==> (r.Ok? <==> v.Plain? && Types.Accepts(c.dbType, v.h))
    ensures v.Plain? ==> (r.Ok? <==> Types.Accepts(c.dbType, v.h))
    ensures r.Ok? && v.Plain? ==> r.value == Types.Format(c.dbType, v.h)
    ensures c.nullable && v.Present? ==> (r.Ok? <==> Types.Accepts(c.dbType, v.h))
    ensures r.Ok? && v.Present? ==> r.value == Types.Format(c.dbType, v.h)
    ensures c.nullable && v.Absent? ==> (r.Ok? <==> Types.AcceptsAbsent(c.dbType, v.ty))
    ensures r.Ok? && v.Absent? ==> r.value == "NULL"
    ensures v.Unsupported? ==> r.Err?
  {
    var escaped := if c.nullable then Types.EscapeNullableVal(c.dbType, v) else Types.EscapeVal(c.dbType, v);
    match escaped
    case Some(text) => Ok(text)
    case None => Err(ColumnError(c.name, v))
  }

  // ---------------------------------------------------------------------------
  // type_definition and type_create_sql
  // ---------------------------------------------------------------------------

  /**
   * `type_definition`: the statements a type needs, post-order like
   * `ObjectAndCreateSql::from_type`: dependencies first, a node's own statement
   * last, arrays and ranges transparent.
   */
  function TypeDefinition(t: PgType): (r: seq<string>)
    requires Handled(t)
    ensures |r| == DefiningCount(t)
    ensures IsDefining(t) ==> |r| > 0 && r[|r| - 1] == CreateStatement(t)
    decreases t
  {
    match t.kind
    case Simple => []
    case Pseudo => []
    case Array(inner) => TypeDefinition(inner)
    case Range(inner) => TypeDefinition(inner)
    case Domain(inner) => TypeDefinition(inner) + [CreateStatement(t)]
    case Enum(_) => [CreateStatement(t)]
    case Composite(fields) => FieldsTypeDefinition(fields) + [CreateStatement(t)]
  }

  function FieldsTypeDefinition(fields: seq<Field>): (r: seq<string>)
    requires forall i | 0 <= i < |fields| :: Handled(fields[i].ty)
    ensures |r| == FieldsDefiningCount(fields)
    decreases fields
  {
    if fields == [] then [] else TypeDefinition(fields[0].ty) + FieldsTypeDefinition(fields[1..])
  }

  function CreateSqls(defs: seq<ObjectAndCreateSql>): seq<string>
  {
    seq(|defs|, i requires 0 <= i < |defs| => defs[i].createSql)
  }

  lemma CreateSqlsAppend(a: seq<ObjectAndCreateSql>, b: seq<ObjectAndCreateSql>)
    ensures CreateSqls(a + b) == CreateSqls(a) + CreateSqls(b)
  {
  }

  /** column.rs's walk yields exactly the statements of type_helpers.rs's walk, in the same order. */
  lemma {:induction false} TypeDefinitionMatchesFromType(t: PgType)
    requires Handled(t)
    ensures TypeDefinition(t) == CreateSqls(FromType(t))
    decreases t
  {
    match t.kind
    case Simple =>
    case Pseudo =>
    case Array(inner) => TypeDefinitionMatchesFromType(inner);
    case Range(inner) => TypeDefinitionMatchesFromType(inner);
    case Domain(inner) =>
      TypeDefinitionMatchesFromType(inner);
      CreateSqlsAppend(FromType(inner), [Own(t)]);
    case Enum(_) =>
    case Composite(fields) =>
      FieldsTypeDefinitionMatches(fields);
      CreateSqlsAppend(FieldsFromType(fields), [Own(t)]);
  }

  lemma {:induction false} FieldsTypeDefinitionMatches(fields: seq<Field>)
    requires forall i | 0 <= i < |fields| :: Handled(fields[i].ty)
    ensures FieldsTypeDefinition(fields) == CreateSqls(FieldsFromType(fields))
    decreases fields
  {
    if fields != [] {
      TypeDefinitionMatchesFromType(fields[0].ty);
      FieldsTypeDefinitionMatches(fields[1..]);
      CreateSqlsAppend(FromType(fields[0].ty), FieldsFromType(fields[1..]));
    }
  }

  /**
   * `type_create_sql`: nothing when the column's type needs no statement;
   * otherwise the distinct statements in first-seen order, joined by `"; "`.
   */
  function TypeCreateSql(c: Column<PgType>): (r: Option<string>)
    requires Handled(c.dbType)
    ensures r.None? <==> DefiningCount(c.dbType) == 0
  {
    var defs := TypeDefinition(c.dbType);
    if defs == [] then None else Some(Join(Dedup(defs), "; "))
  }

  /**
   * The statements joined by `type_create_sql` are each statement of
   * `type_definition` exactly once, ordered by first appearance.
   */
  lemma TypeCreateSqlStatements(c: Column<PgType>)
    requires Handled(c.dbType) && TypeCreateSql(c).Some?
    ensures var defs := TypeDefinition(c.dbType);
      var stmts := Dedup(defs);
      && TypeCreateSql(c) == Some(Join(stmts, "; "))
      && Distinct(stmts)
      && (forall i | 0 <= i < |defs| :: defs[i] in stmts)
      && (forall i | 0 <= i < |stmts| :: stmts[i] in defs)
      && (forall i, j | 0 <= i < j < |stmts| :: FirstIndex(defs, stmts[i]) < FirstIndex(defs, stmts[j]))
  {
    DedupFirstSeenOrder(TypeDefinition(c.dbType));
  }

  /**
   * When `type_definition` repeats no statement, `type_create_sql` is its
   * plain join: deduplication changes nothing.
   */
  lemma TypeCreateSqlWithoutRepeats(c: Column<PgType>)
    requires Handled(c.dbType) && Distinct(TypeDefinition(c.dbType))
    ensures var defs := TypeDefinition(c.dbType);
      TypeCreateSql(c) == if defs == [] then None else Some(Join(defs, "; "))
  {
    DedupOfDistinct(TypeDefinition(c.dbType));
  }

  /** The statements of a block of entries are the matching block of statements. */
  lemma CreateSqlsSlice(defs: seq<ObjectAndCreateSql>, block: seq<ObjectAndCreateSql>, lo: int, hi: int)
    requires 0 <= lo <= hi <= |defs| && defs[lo..hi] == block
    ensures CreateSqls(defs)[lo..hi] == CreateSqls(block)
  {
    assert forall q | 0 <= q < hi - lo :: CreateSqls(defs)[lo..hi][q] == defs[lo + q].createSql;
  }

  /**
   * Statement `k` of `type_definition` closes the complete statement list of a
   * Domain, Enum or Composite node of the type.
   */
  lemma BlockAt(t: PgType, k: int) returns (n: PgType)
    requires Handled(t) && 0 <= k < |TypeDefinition(t)|
    ensures Reaches(t, n) && Handled(n) && IsDefining(n)
    ensures |TypeDefinition(n)| <= k + 1
    ensures TypeDefinition(t)[k + 1 - |TypeDefinition(n)|..k + 1] == TypeDefinition(n)
  {
    FromTypeDependenciesFirst(t);
    assert HasDefinitionBlock(t, FromType(t), k);
    n :| Reaches(t, n) && DefinedAt(FromType(t), k, n);
    BlockStatements(t, n, k);
  }

  /** An entry block of `from_type` is a statement block of `type_definition`. */
  lemma BlockStatements(t: PgType, n: PgType, k: int)
    requires Handled(t) && DefinedAt(FromType(t), k, n)
    ensures |TypeDefinition(n)| <= k + 1
    ensures TypeDefinition(t)[k + 1 - |TypeDefinition(n)|..k + 1] == TypeDefinition(n)
  {
    var entries, block := FromType(t), FromType(n);
    CreateSqlsSlice(entries, block, k + 1 - |block|, k + 1);
    TypeDefinitionMatchesFromType(t);
    TypeDefinitionMatchesFromType(n);
  }

  /**
   * Deduplication keeps dependencies first: the statement `type_create_sql`
   * emits at position `i` creates a node of the type, and every statement that
   * node needs is emitted at or before position `i`.
   */
  lemma DedupKeepsDependenciesFirst(t: PgType, i: int) returns (n: PgType)
    requires Handled(t) && 0 <= i < |Dedup(TypeDefinition(t))|
    ensures Reaches(t, n) && Handled(n) && IsDefining(n)
    ensures Dedup(TypeDefinition(t))[i] == CreateStatement(n)
    ensures forall q | 0 <= q < |TypeDefinition(n)| :: TypeDefinition(n)[q] in Dedup(TypeDefinition(t))[..i + 1]
  {
    var defs := TypeDefinition(t);
    var d := Dedup(defs);
    var k := FirstIndex(defs, d[i]);
    n := BlockAt(t, k);
    var own := TypeDefinition(n);
    var lo := k + 1 - |own|;
    assert defs[k] == defs[lo..k + 1][|own| - 1] == own[|own| - 1];
    forall q | 0 <= q < |own| ensures own[q] in d[..i + 1] {
      assert own[q] == defs[lo..k + 1][q] == defs[lo + q];
      FirstIndexAtMost(defs, lo + q);
      DedupKeepsEarlier(defs, i, own[q]);
    }
  }

  lemma Point2dFieldList()
    ensures FieldList(Point2d.kind.fields) == "x int2, y int2"
  {
    var fs := Point2d.kind.fields;
    assert fs == [Field("x", Int2), Field("y", Int2)];
    assert FieldDecl(fs[0]) == "x int2" && FieldDecl(fs[1]) == "y int2";
    assert seq(2, i requires 0 <= i < 2 => FieldDecl(fs[i])) == ["x int2", "y int2"];
    JoinTwo("x int2", "y int2", ", ");
  }

  lemma Point2dCreate()
    ensures CreateStatement(Point2d) == "CREATE TYPE point2d AS (x int2, y int2)"
  {
    Point2dFieldList();
  }

  lemma Point2dDefinition()
    ensures TypeDefinition(Point2d) == [CreateStatement(Point2d)]
  {
    var fs := Point2d.kind.fields;
    assert fs == [Field("x", Int2), Field("y", Int2)];
    assert FieldsTypeDefinition(fs[1..]) == [];
    assert FieldsTypeDefinition(fs) == [];
  }

  lemma SegmentFieldList()
    ensures FieldList(Segment.kind.fields) == "a point2d, b point2d"
  {
    var fs := Segment.kind.fields;
    assert fs == [Field("a", Point2d), Field("b", Point2d)];
    assert Render(Point2d) == "point2d";
    assert FieldDecl(fs[0]) == "a point2d" && FieldDecl(fs[1]) == "b point2d";
    assert seq(2, i requires 0 <= i < 2 => FieldDecl(fs[i])) == ["a point2d", "b point2d"];
    JoinTwo("a point2d", "b point2d", ", ");
  }

  lemma SegmentCreate()
    ensures CreateStatement(Segment) == "CREATE TYPE segment AS (a point2d, b point2d)"
  {
    SegmentFieldList();
  }

  lemma SegmentDefinition()
    ensures TypeDefinition(Segment) == [CreateStatement(Point2d), CreateStatement(Point2d), CreateStatement(Segment)]
  {
    Point2dDefinition();
    var fs := Segment.kind.fields;
    assert fs == [Field("a", Point2d), Field("b", Point2d)];
    assert FieldsTypeDefinition(fs[1..]) == [CreateStatement(Point2d)];
  }

  lemma DedupRepeatedFirst(p: string, s: string)
    requires p != s
    ensures Dedup([p, p, s]) == [p, s]
  {
    var defs := [p, p, s];
    assert Dedup(defs[..1]) == [p];
    assert Dedup(defs[..2]) == [p];
  }

  /**
   * A column whose composite type uses another composite twice creates the
   * inner type once, before the outer one.
   */
  lemma TypeCreateSqlDeduplicates()
    ensures TypeCreateSql(NewColumn("path", Segment))
      == Some(CreateStatement(Point2d) + "; " + CreateStatement(Segment))
  {
    SegmentDefinition();
    var p := CreateStatement(Point2d);
    var s := CreateStatement(Segment);
    assert p != s by {
      Point2dCreate();
      SegmentCreate();
      assert p[12] != s[12];
    }
    DedupRepeatedFirst(p, s);
    JoinTwo(p, s, "; ");
  }
}
