# pg-helper in Dafny

This project models the pure SQL-text generation of the Rust crate `pg-helper` and proves properties of it. That generation covers:

- the scalar type model `DbType`, its value escaper and its SQL type names (`src/types.rs`);
- the post-order emitter of `CREATE TYPE` / `CREATE DOMAIN` statements for PostgreSQL types (`src/type_helpers.rs`, and `type_definition` in `src/column.rs`);
- the column builder, the column's definition fragment and `type_create_sql` (`src/column.rs`);
- the `CREATE TABLE IF NOT EXISTS` and `INSERT INTO` statements of a table (`src/table.rs`);
- the `CHECK` constraint (`src/constraint.rs`).

Modules, one per source file plus two shared ones:

| module | file | models |
|---|---|---|
| `Wrappers` | wrappers.dfy | `Option` and `Result` |
| `Strings` | strings.dfy | `join`, itertools' `unique` (first-seen deduplication), decimal and hex digits, the UTF-8 byte length of a string (Rust's `String::len`) |
| `Types` | types.dfy | `src/types.rs` |
| `PgTypes` | pg_types.dfy | the part of `postgres_types::Type` the emitters read: name, schema, `Kind`, fields, `Display` |
| `TypeHelpers` | type_helpers.dfy | `src/type_helpers.rs` |
| `Columns` | columns.dfy | `src/column.rs` and the per-column `escape_val` that `insert_sql` calls |
| `Constraints` | constraints.dfy | `src/constraint.rs` |
| `Tables` | tables.dfy | `src/table.rs` and the `buys` table of its tests |

How the model represents the source:

- **Values.** A value reaches the escaper as `&dyn Any` and is recovered by `downcast_ref`. Here it is the tagged union `Types.Value`:
  - `Plain(h)` is a bare host value;
  - `Present(h)` is `Some(h)`;
  - `Absent(ty)` is `None::<ty>`;
  - `Unsupported` is a value of any other Rust type.

  A failed downcast is then a tag mismatch (`DowncastPlain`, `DowncastOption`).
- **Floats.** An `f32`/`f64` is kept as the decimal text its `Display` prints: a sign, whole digits and fraction digits, or infinity or NaN.
- **The builder.** `ColumnBuilder` takes `mut self` and assigns fields. It is a class whose methods modify it. The class keeps the invariant that a primary key is unique.
- **Column type rendering.** `Column<T>` is generic in how its type is rendered:
  - tables use `Types.DbType` with `Types.TypeName`, as the `table.rs` tests expect;
  - `type_create_sql` walks a `PgTypes.PgType`, as `column.rs` declares.
- **Panics become preconditions.**
  - `unimplemented!` on an unhandled kind becomes `PgTypes.Handled`. `Multirange` stands for every such kind.
  - The `todo!()` of `Date`/`Json` escaping becomes `Types.Implemented`.

## Model

| member | source | states |
|---|---|---|
| Types.EscapeVal | src/types.rs:24-87 | succeeds exactly for a bare value of the type's own Rust type, a one-char `char(1)` value, or a string within the `char`/`varchar` byte bound (`Accepts`); an `Option` or any other shape gives `None`; on success the literal is `format` of the value |
| Types.EscapeNullableVal | src/types.rs:89-158 | returns `escape_val`'s result whenever that succeeds; `Some(v)` escapes as `v` would; an absent value of the type's own Rust type (or `Option<char>` for `char(1)`) is exactly `NULL`, an absent `char`/`varchar` string counting as length 0; other shapes give `None` |
| Types.Format | src/types.rs:160-176 | no contract of its own; `EscapedLiteralShape` states that it leaves numbers and booleans unquoted and puts single quotes around the text of `uuid`/`char`/`varchar`/`text` values |
| Types.FormatOpt | src/types.rs:178-184 | no contract of its own; `EscapeNullableVal` states that an absent value gives exactly `NULL` and a present one gives `format` of it; `EscapedValueIsNeverNull` states that no accepted value formats to `NULL` |
| Types.EscapedLiteralShape | src/types.rs:160-168 | numbers and booleans render unquoted and contain no quote; `uuid`/`char`/`varchar`/`text` render as `'` + the value's text verbatim + `'` |
| Types.NumberTextHasNoQuote | src/types.rs:162-167 | the display of a boolean or number is non-empty, quote-free and starts with a digit, `-`, `t`, `f`, `i` or is `NaN` |
| Types.EscapedValueIsNeverNull | src/types.rs:160-184 | a successfully escaped bare value is never the `NULL` keyword, so `format` and `format_opt`'s `NULL` cannot be confused |
| Types.EmbeddedQuoteNotDoubled | src/types.rs:168 | `O'Brien` escapes to `'O'Brien'`: embedded quotes are not doubled |
| Types.VarCharBound | src/types.rs:73-81 | `varchar(n)` accepts exactly the strings of at most `n` UTF-8 bytes; `varchar` accepts every string |
| Types.CharBoundRule | src/types.rs:60-72 | `char`'s bound defaults to 1; a single `char` is accepted exactly when the bound is 1; a string exactly when within the bound |
| Types.TypeName | src/types.rs:187-216 | no contract of its own; `TypeNameRoundTrip` states that every name it prints reads back as its type, and `TypeNameInjective` that no two types share one |
| Types.TypeNameRoundTrip | src/types.rs:187-216 | every SQL type name (`boolean`, `smallint`, …, `char(n)`, `varchar`, `text`) reads back as its type |
| Types.CharNameRoundTrip | src/types.rs:199-205 | `char(n)` reads back as `Char(Some(n))` |
| Types.VarCharNameRoundTrip | src/types.rs:206-212 | `varchar(n)` reads back as `VarChar(Some(n))` |
| Types.TypeNameInjective | src/types.rs:187-216 | no two types share a SQL name |
| Strings.Utf8Len | src/types.rs:68 | the byte length lies between the character count and four times it, and equals it for ASCII |
| TypeHelpers.FromType | src/type_helpers.rs:20-63 | one entry per Domain/Enum/Composite node, repeats counted (no deduplication); a defining type's own entry is last |
| TypeHelpers.FromTypeByKind | src/type_helpers.rs:20-58 | Simple/Pseudo give nothing; Array/Range give exactly the inner type's entries; a Domain adds one entry named after it with `CREATE DOMAIN "<ty>" AS <inner>` (schema-qualified display); an Enum gives exactly one entry `CREATE TYPE "<ty>" AS ENUM (<labels>)`; a Composite gives its fields' entries and then one entry `CREATE TYPE <name> AS (<fields>)` with the unqualified name |
| TypeHelpers.CreateStatement | src/type_helpers.rs:28-58 | no contract of its own; `FromTypeByKind` states the exact `CREATE DOMAIN`, `CREATE TYPE … AS ENUM` and `CREATE TYPE <name> AS (…)` text for every type |
| TypeHelpers.FieldsFromTypeAppend | src/type_helpers.rs:43-46 | the flat-map over fields distributes over concatenation of field lists |
| TypeHelpers.CompositeFieldOrder | src/type_helpers.rs:42-58 | a composite lists the entries of the fields before field `k`, then field `k`'s, then the later fields', then its own |
| TypeHelpers.FromTypeDependenciesFirst | src/type_helpers.rs:20-63 | every entry belongs to a node of the type and is immediately preceded by the complete statement list of what that node uses |
| TypeHelpers.FieldsDependenciesFirst | src/type_helpers.rs:42-58 | the entries of any suffix of a composite's fields keep dependencies first |
| TypeHelpers.FromTypeKeepsRepeats | src/type_helpers.rs:20-63 | a composite with two fields of one composite type lists that type's entry twice |
| TypeHelpers.StructType | src/type_helpers.rs:74-85 | the composite keeps the given name, renders bare (schema `public`) and has the given fields in order |
| TypeHelpers.StructTypeDefinition | src/column.rs:174-185 | `struct_type` (the identical copy in `column.rs`) yields a type whose last statement is `CREATE TYPE <name> AS (<fields>)` named `<name>` |
| TypeHelpers.ArrayType | src/type_helpers.rs:87-90 | the result is an array of the given type, whose only child is that type |
| TypeHelpers.ArrayTypeTransparent | src/type_helpers.rs:87-90 | the array is named `<name>s` and needs exactly its element's statements |
| Columns.NewColumn | src/column.rs:71-80 | a new column is not nullable, not unique, not a primary key and has no foreign key |
| Columns.ColumnBuilder.constructor | src/column.rs:16-25 | the builder starts from exactly `Column::new`'s column |
| Columns.ColumnBuilder.Nullable | src/column.rs:27-30 | sets the nullable flag and changes nothing else |
| Columns.ColumnBuilder.Unique | src/column.rs:32-35 | sets the unique flag and changes nothing else |
| Columns.ColumnBuilder.PrimaryKey | src/column.rs:37-41 | sets both the primary-key and unique flags and changes nothing else |
| Columns.ColumnBuilder.ForeignKey | src/column.rs:43-46 | sets the foreign key to `(table, column)` and changes nothing else |
| Columns.ColumnBuilder.Finish | src/column.rs:48-57 | copies every field into the column, which satisfies primary key ⇒ unique |
| Columns.Column.IsNullable | src/column.rs:101-103 | no contract of its own; returns the nullable flag, which `NewColumn` and `BuildPrimaryKey` state through it |
| Columns.Column.IsUniqueAsWritten | src/column.rs:105-107 | no contract of its own; returns the nullable flag, as written, which `IsUniqueAsWrittenReportsNullable` and `BuildPrimaryKey` exhibit |
| Columns.Column.IsUnique | src/column.rs:105-107 | no contract of its own; the getter as evidently intended, returning the uniqueness flag; `PrimaryKeyIsUnique` and `BuildPrimaryKey` state it for primary keys |
| Columns.Column.IsPrimaryKey | src/column.rs:109-111 | no contract of its own; returns the primary-key flag, which `NewColumn` and `BuildPrimaryKey` state through it |
| Columns.Column.ForeignKey | src/column.rs:113-115 | no contract of its own; returns the foreign key, which `NewColumn` states is absent for a new column |
| Columns.BuildPrimaryKey | src/column.rs:16-57 | `ColumnBuilder::new(name, ty).primary_key().finish()` is `Column::new`'s column with the unique and primary-key flags set; the corrected getter reports it unique and the getter as written does not |
| Columns.IsUniqueAsWrittenReportsNullable | src/column.rs:105-107 | a unique, non-nullable primary-key column is reported not unique by `is_unique` as written |
| Columns.PrimaryKeyIsUnique | src/column.rs:101-115 | with the corrected getter, every valid primary-key column (every one `Finish` returns) reports itself unique |
| Columns.Definition | src/column.rs:118-134 | no contract of its own; `DefinitionReadsBack` states its text |
| Columns.DefinitionReadsBack | src/column.rs:118-134 | a definition is `<name> <type>` followed by a tail from which nullability, `UNIQUE`, `PRIMARY KEY` and `REFERENCES t(c)` read back exactly |
| Columns.ModifiersRoundTrip | src/column.rs:120-127 | the flags render in the fixed order ` NULL`/` NOT NULL`, ` UNIQUE`, ` PRIMARY KEY`, ` REFERENCES t(c)` and parse back to the column's flags |
| Columns.EscapeColumnVal | src/table.rs:43 | every column accepts a bare value exactly when `escape_val` does, rendering it as `format`; a non-nullable column accepts nothing else; a nullable one also renders an absent value as `NULL` and a present one as its literal; failure names the column and the value |
| Columns.TypeDefinition | src/column.rs:138-172 | one statement per Domain/Enum/Composite node; a defining type's own statement is last |
| Columns.TypeDefinitionMatchesFromType | src/column.rs:138-172 | `type_definition` gives exactly the statements of `from_type`'s entries, in the same order |
| Columns.TypeCreateSql | src/column.rs:86-93 | `None` exactly when the type needs no statement |
| Columns.TypeCreateSqlStatements | src/column.rs:86-93 | otherwise the result joins by `"; "` the distinct statements of `type_definition`, each exactly once, in first-seen order |
| Columns.BlockAt | src/column.rs:138-172 | every statement of `type_definition` closes the complete statement list of a Domain/Enum/Composite node of the type |
| Columns.DedupKeepsDependenciesFirst | src/column.rs:86-93 | deduplication keeps dependencies first: the statement at each position of `type_create_sql`'s list creates a node of the type, and every statement that node needs appears at or before that position |
| Columns.TypeCreateSqlWithoutRepeats | src/column.rs:86-93 | when `type_definition` repeats no statement, the result is its plain join by `"; "` |
| Columns.TypeCreateSqlDeduplicates | src/column.rs:86-93 | a column of a composite using another composite twice creates the inner type once, then the outer |
| Columns.Point2dCreate | src/column.rs:155-166 | a two-field composite renders `CREATE TYPE point2d AS (x int2, y int2)` |
| Columns.SegmentDefinition | src/column.rs:155-166 | a composite of two `point2d` fields lists `point2d`'s statement twice before its own |
| Strings.DedupFirstSeenOrder | src/column.rs:91 | deduplication keeps elements in the order of their first occurrence |
| Strings.Dedup | src/column.rs:91 | the result is duplicate-free and has exactly the input's elements |
| Constraints.NewCheckConstraint | src/constraint.rs:10-15 | the name and the condition are stored verbatim |
| Constraints.Render | src/constraint.rs:18-22 | the text is `CONSTRAINT `, the name, ` CHECK (`, the condition unparsed and unescaped, `)`; its length is the name's plus the condition's plus 20 |
| Constraints.RenderInjective | src/constraint.rs:18-22 | two constraints whose names have equal length render alike only if equal |
| Tables.CreateTableSql | src/table.rs:18-31 | no contract of its own; `ConstraintsFollowColumns` states its text for every table, `AddedConstraintGoesLast` how it changes when a constraint is added, and `BuyCreateTable` the test's table |
| Tables.ConstraintsFollowColumns | src/table.rs:18-31 | `CREATE TABLE IF NOT EXISTS <name> (` then the column definitions joined by `,`, then `, ` and the constraints joined by `,` only when there are any, then `);` |
| Tables.AddedConstraintGoesLast | src/table.rs:18-31 | declaring one more constraint keeps the statement up to its closing `);` and adds the constraint there, after `, ` if it is the first and `,` otherwise |
| Tables.EscapeAll | src/table.rs:39-46 | the zipped escape succeeds exactly when every value escapes against the column at its position, giving those literals in order; otherwise it gives the first failing column's error |
| Tables.InsertSql | src/table.rs:35-54 | on success `INSERT INTO <name> (<names joined by ,>) VALUES (<literals joined by ,>);`; fails exactly when some value is rejected, with the first rejected column's error |
| Tables.FirstFailureUnique | src/table.rs:40-46 | the first failing position is unique |
| Tables.BuildBuyColumns | src/table.rs:76-94 | the builder calls of the tests produce the five `buys` columns |
| Tables.BuyCreateTable | src/table.rs:111-123 | the `buys` table renders exactly the statement the `create_table` test expects |
| Tables.BuyInsertSingle | src/table.rs:125-149 | the `insert_single` row renders the two quoted UUIDs, `NULL`, `14.56`, `NULL` |
| Tables.BuyInsertAllValues | src/table.rs:151-175 | the `insert_with_all_values` row renders the two quoted UUIDs, `true`, `18899.9` and the quoted details |
| Tables.BuyInsertFirstFailure | src/table.rs:40-46 | a row with a missing `buy_id` and a mistyped `details` fails on `buy_id`, the first rejecting column |

## Left out

- `src/ext.rs` is left out: its `Client` calls, the type-existence probe loop and the row decoding are database I/O. `src/serial.rs` delegates to the `postgres_protocol` wire codecs. `src/value.rs` is the `Any` trait-object plumbing, which `Types.Value` replaces. `src/macros.rs` holds compile-time macros. `examples/figure.rs` is a demo against a live database.
- `IndexMethod`, `enum_type`, the other constraint kinds and `ext_async` are named in `src/lib.rs`, but their source is not part of this model.
- `Date` and `Json` escaping and formatting end in `todo!()`. The model excludes them by the precondition `Implemented`.
- The `uuid` crate's `Display` is modelled as the hyphenated lower-case hex form (`Types.UuidText`, 36 characters). The library itself is left out.
- Float formatting is not modelled. The model takes the decimal text Rust's `Display` prints for an `f32`/`f64` as given, in `Types.Float`.
- `postgres_types::Type` is reduced to name, schema and kind. The oid, the built-in type catalogue and the library's own `Display` are left out. `PgTypes.Render` assumes the bare name for the `public` and `pg_catalog` schemas and `schema.name` otherwise.
- `Multirange` stands for every kind the emitters do not handle. Both emitters panic there, so the model requires `Handled`.
- Columns.EscapeColumnVal: the per-column `escape_val` called at `src/table.rs:43` is not part of the shown `column.rs`. The model assumes it uses `escape_nullable_val` for a nullable column and `escape_val` otherwise. It also assumes the error carries the column's name and the value.
- Tables.EscapeAll: it requires every column type to be `Implemented`, which is stronger than the source. The source's `collect` stops at the first rejected value, so a row rejected before any `date`/`json` column returns that error without panicking. The model does not cover such rows.
- Tables.InsertSql: it requires every column type to be `Implemented`, which is stronger than the source. It is stronger for the same reason as for `Tables.EscapeAll`, whose fold it uses.
- Tables.InsertSql: it requires as many values as columns. The trait's const parameter `N` guarantees this in the source.
- Tables.BuyInsertAllValues: the details text is a parameter rather than the test's literal. `varchar` has no bound, so every string behaves alike.
- Strings are sequences of Unicode scalar values. Byte lengths are computed by `Utf8Len`. Only the `char`/`varchar` bounds and no other part of the model use them.
- Constraints.Render: the length it states counts characters. The byte count follows the same sum.
- Quotes inside a string value are not doubled by the source, and the model keeps that. `EmbeddedQuoteNotDoubled` shows the consequence.
- `Column::name`, `Column::db_type` and `ObjectAndCreateSql::name`/`create_sql` read a field. The model reads the datatype's field directly.
- `from_type` keeps repeated entries (`FromTypeKeepsRepeats`). Only `type_create_sql` deduplicates.

## Findings

| source | as written | input that shows it | evidently intended | confidence | as-written member | corrected member |
|---|---|---|---|---|---|---|
| src/column.rs:105-107 | `is_unique()` returns the `nullable` field | a column built with `primary_key()`: unique, not nullable, yet `is_unique()` is false | `is_unique()` returns the `unique` field | high; not executed | Columns.IsUniqueAsWrittenReportsNullable | Columns.BuildPrimaryKey |
