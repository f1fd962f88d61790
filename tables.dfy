/**
 * table.rs: the `Table` trait's default methods. A table is its name, its
 * columns and its check constraints; `values()` is the row being inserted,
 * one value per column.
 */
module Tables {
  import opened Wrappers
  import opened Strings
  import opened Types
  import opened Columns
  import opened Constraints

  datatype Table = Table(name: string, columns: seq<Column<DbType>>, constraints: seq<CheckConstraint>)

  // ---------------------------------------------------------------------------
  // create_table_sql
  // ---------------------------------------------------------------------------

  /** Each column's definition fragment, in column order. */
  function ColumnDefs(cols: seq<Column<DbType>>): seq<string>
  {
    seq(|cols|, i requires 0 <= i < |cols| => Definition(cols[i], TypeName))
  }

  /** Each constraint's text, in declaration order. */
  function ConstraintTexts(cs: seq<CheckConstraint>): seq<string>
  {
    seq(|cs|, i requires 0 <= i < |cs| => Constraints.Render(cs[i]))
  }

  /**
   * `create_table_sql`: the column definitions joined by `,`, then `, ` and
   * the constraints joined by `,` when that text is not empty.
   */
  function CreateTableSql(t: Table): string
  {
    var columns := Join(ColumnDefs(t.columns), ",");
    var constraints := Join(ConstraintTexts(t.constraints), ",");
    var sql := if constraints != "" then columns + ", " + constraints else columns;
    "CREATE TABLE IF NOT EXISTS " + t.name + " (" + sql + ");"
  }

  /**
   * The constraints follow all the columns, after `, `, and are left out,
   * separator included, exactly when the table has none.
   */
  lemma ConstraintsFollowColumns(t: Table)
    ensures CreateTableSql(t)
      == "CREATE TABLE IF NOT EXISTS " + t.name + " ("
         + Join(ColumnDefs(t.columns), ",")
         + ConstraintTail(t.constraints)
         + ");"
  {
    var texts := ConstraintTexts(t.constraints);
    forall i | 0 <= i < |texts|
      ensures texts[i] != ""
    {
      RenderNonEmpty(t.constraints[i]);
    }
    JoinEmpty(texts, ",");
  }

  /**
   * Declaring one more constraint leaves the statement as it was up to its
   * closing `);` and adds the new constraint there: after `, ` when it is the
   * first constraint, after `,` otherwise.
   */
  lemma AddedConstraintGoesLast(t: Table, c: CheckConstraint)
    ensures var before := CreateTableSql(t);
      var after := CreateTableSql(t.(constraints := t.constraints + [c]));
      && |before| >= 2 && before[|before| - 2..] == ");"
      && after == before[..|before| - 2] + (if t.constraints == [] then ", " else ",") + Constraints.Render(c) + ");"
  {
    var head := "CREATE TABLE IF NOT EXISTS " + t.name + " (" + Join(ColumnDefs(t.columns), ",");
    ConstraintsFollowColumns(t);
    ConstraintsFollowColumns(t.(constraints := t.constraints + [c]));
    ConstraintTailAppend(t.constraints, c);
    InsertBeforeClose(head, ConstraintTail(t.constraints), if t.constraints == [] then ", " else ",", Constraints.Render(c));
  }

  /** The text the constraints add after the column definitions: nothing when there are none. */
  function ConstraintTail(cs: seq<CheckConstraint>): string
  {
    SeparatedTail(ConstraintTexts(cs))
  }

  function SeparatedTail(texts: seq<string>): string
  {
    if texts == [] then "" else ", " + Join(texts, ",")
  }

  lemma SeparatedTailSnoc(texts: seq<string>, r: string)
    ensures SeparatedTail(texts + [r]) == SeparatedTail(texts) + (if texts == [] then ", " else ",") + r
  {
    if texts == [] {
      assert texts + [r] == [r];
    } else {
      JoinSnoc(texts, r, ",");
    }
  }

  lemma ConstraintTailAppend(cs: seq<CheckConstraint>, c: CheckConstraint)
    ensures ConstraintTail(cs + [c]) == ConstraintTail(cs) + (if cs == [] then ", " else ",") + Constraints.Render(c)
  {
    ConstraintTextsAppend(cs, c);
    SeparatedTailSnoc(ConstraintTexts(cs), Constraints.Render(c));
  }

  lemma ConstraintTextsAppend(cs: seq<CheckConstraint>, c: CheckConstraint)
    ensures ConstraintTexts(cs + [c]) == ConstraintTexts(cs) + [Constraints.Render(c)]
  {
    assert forall i | 0 <= i < |cs| :: (cs + [c])[i] == cs[i];
  }

  lemma InsertBeforeClose(head: string, tail: string, sep: string, r: string)
    ensures var before := head + tail + ");";
      && |before| >= 2 && before[|before| - 2..] == ");"
      && head + (tail + sep + r) + ");" == before[..|before| - 2] + sep + r + ");"
  {
    var before := head + tail + ");";
    assert before[..|before| - 2] == head + tail;
  }

  // ---------------------------------------------------------------------------
  // insert_sql
  // ---------------------------------------------------------------------------

  function Names(cols: seq<Column<DbType>>): seq<string>
  {
    seq(|cols|, i requires 0 <= i < |cols| => cols[i].name)
  }

  /** Every column's type can escape values (`date` and `json` cannot). */
  predicate AllImplemented(cols: seq<Column<DbType>>)
  {
    forall i | 0 <= i < |cols| :: Implemented(cols[i].dbType)
  }

  /** Every value is accepted by the column at its position. */
  predicate AllEscape(cols: seq<Column<DbType>>, vals: seq<Value>)
    requires |vals| == |cols| && AllImplemented(cols)
  {
    forall i | 0 <= i < |cols| :: EscapeColumnVal(cols[i], vals[i]).Ok?
  }

  /** Position `k` is the first whose value its column rejects. */
  predicate FirstFailure(cols: seq<Column<DbType>>, vals: seq<Value>, k: int)
    requires |vals| == |cols| && AllImplemented(cols)
  {
    0 <= k < |cols| && EscapeColumnVal(cols[k], vals[k]).Err?
    && forall j | 0 <= j < k :: EscapeColumnVal(cols[j], vals[j]).Ok?
  }

  /** The literals of a row every column accepts, in column order. */
  function EscapedValues(cols: seq<Column<DbType>>, vals: seq<Value>): seq<string>
    requires |vals| == |cols| && AllImplemented(cols) && AllEscape(cols, vals)
  {
    seq(|cols|, i requires 0 <= i < |cols| => EscapeColumnVal(cols[i], vals[i]).value)
  }

  /**
   * The `Result` collect over the zipped columns and values: the literals
   * when every value escapes, otherwise the error of the first that does not.
   */
  function EscapeAll(cols: seq<Column<DbType>>, vals: seq<Value>): (r: Result<seq<string>, ColumnError>)
    requires |vals| == |cols| && AllImplemented(cols)
    ensures r.Ok? <==> AllEscape(cols, vals)
    ensures r.Ok? ==> r.value == EscapedValues(cols, vals)
    ensures r.Err? ==> exists k :: FirstFailure(cols, vals, k) && r.error == EscapeColumnVal(cols[k], vals[k]).error
  {
    if cols == [] then Ok([])
    else
      match EscapeColumnVal(cols[0], vals[0])
      case Err(e) =>
        assert FirstFailure(cols, vals, 0);
        Err(e)
      case Ok(text) =>
        assert AllImplemented(cols[1..]) by {
          forall i | 0 <= i < |cols| - 1
            ensures Implemented(cols[1..][i].dbType)
          {
            assert cols[1..][i] == cols[i + 1];
          }
        }
        var rest := EscapeAll(cols[1..], vals[1..]);
        match rest
        case Err(e) =>
          var k :| FirstFailure(cols[1..], vals[1..], k) && e == EscapeColumnVal(cols[1..][k], vals[1..][k]).error;
          assert FirstFailure(cols, vals, k + 1) by {
            forall j | 0 <= j < k + 1
              ensures EscapeColumnVal(cols[j], vals[j]).Ok?
            {
              if j > 0 {
                assert cols[j] == cols[1..][j - 1] && vals[j] == vals[1..][j - 1];
              }
            }
          }
          Err(e)
        case Ok(texts) =>
          assert AllEscape(cols, vals) by {
            forall i | 0 <= i < |cols|
              ensures EscapeColumnVal(cols[i], vals[i]).Ok?
            {
              if i > 0 {
                assert cols[i] == cols[1..][i - 1] && vals[i] == vals[1..][i - 1];
              }
            }
          }
          assert [text] + texts == EscapedValues(cols, vals) by {
            forall i | 0 <= i < |cols|
              ensures ([text] + texts)[i] == EscapeColumnVal(cols[i], vals[i]).value
            {
              if i > 0 {
                assert cols[i] == cols[1..][i - 1] && vals[i] == vals[1..][i - 1];
              }
            }
          }
          Ok([text] + texts)
  }

  /**
   * `insert_sql`: the column names joined by `,` and the row's literals,
   * each escaped against the column at its position, joined by `,`; or the
   * error of the first value its column rejects.
   */
  function InsertSql(t: Table, vals: seq<Value>): (r: Result<string, ColumnError>)
    requires |vals| == |t.columns| && AllImplemented(t.columns)
    ensures r.Ok? <==> AllEscape(t.columns, vals)
    ensures r.Ok? ==> (r.value
      == "INSERT INTO " + t.name + " (" + Join(Names(t.columns), ",") + ") VALUES ("
         + Join(EscapedValues(t.columns, vals), ",") + ");")
    ensures r.Err? ==> exists k :: FirstFailure(t.columns, vals, k) && r.error == ColumnError(t.columns[k].name, vals[k])
  {
    var names := Join(Names(t.columns), ",");
    match EscapeAll(t.columns, vals)
    case Err(e) => Err(e)
    case Ok(escaped) => Ok("INSERT INTO " + t.name + " (" + names + ") VALUES (" + Join(escaped, ",") + ");")
  }

  /** Only one position can be the first failure, so the error names one column. */
  lemma FirstFailureUnique(cols: seq<Column<DbType>>, vals: seq<Value>, k: int, m: int)
    requires |vals| == |cols| && AllImplemented(cols)
    requires FirstFailure(cols, vals, k) && FirstFailure(cols, vals, m)
    ensures k == m
  {
  }

  // ---------------------------------------------------------------------------
  // The `buys` table of the source's tests
  // ---------------------------------------------------------------------------

  const BuyId := Column("buy_id", Uuid, false, true, true, None)
  const CustomerId := Column("customer_id", Uuid, false, false, false, Some(("users", "user_id")))
  const HasDiscount := Column("has_discount", Boolean, true, false, false, None)
  const TotalPrice := Column("total_price", Float, true, false, false, None)
  const Details := Column("details", VarChar(None), true, false, false, None)

  const Buy := Table("buys", [BuyId, CustomerId, HasDiscount, TotalPrice, Details], [])

  /** `ColumnBuilder::new("buy_id", DbType::Uuid).primary_key().finish()`. */
  method BuildBuyId() returns (c: Column<DbType>)
    ensures c == BuyId
  {
    var b := new ColumnBuilder("buy_id", Uuid);
    b.PrimaryKey();
    c := b.Finish();
  }

  method BuildCustomerId() returns (c: Column<DbType>)
    ensures c == CustomerId
  {
    var b := new ColumnBuilder("customer_id", Uuid);
    b.ForeignKey("users", "user_id");
    c := b.Finish();
  }

  /** A nullable column of the given name and type, as `.nullable().finish()` builds it. */
  method BuildNullable(name: string, dbType: DbType) returns (c: Column<DbType>)
    ensures c == Column(name, dbType, true, false, false, None)
  {
    var b := new ColumnBuilder(name, dbType);
    b.Nullable();
    c := b.Finish();
  }

  /** The `buys` columns, built as the tests build them, come out as `Buy`'s. */
  method BuildBuyColumns() returns (cols: seq<Column<DbType>>)
    ensures cols == Buy.columns
  {
    var buyId := BuildBuyId();
    var customerId := BuildCustomerId();
    var hasDiscount := BuildNullable("has_discount", Boolean);
    var totalPrice := BuildNullable("total_price", Float);
    var details := BuildNullable("details", VarChar(None));
    cols := [buyId, customerId, hasDiscount, totalPrice, details];
  }

  lemma JoinCons(a: string, rest: seq<string>, sep: string)
    requires rest != []
    ensures Join([a] + rest, sep) == a + sep + Join(rest, sep)
  {
    assert ([a] + rest)[1..] == rest;
  }

  lemma BuyIdDefinition()
    ensures Definition(BuyId, TypeName) == "buy_id uuid NOT NULL UNIQUE PRIMARY KEY"
  {
    assert Definition(BuyId, TypeName) == "buy_id" + " " + "uuid" + (" NOT NULL" + " UNIQUE" + " PRIMARY KEY" + "");
    BuyIdText();
  }

  lemma BuyIdText()
    ensures "buy_id" + " " + "uuid" + (" NOT NULL" + " UNIQUE" + " PRIMARY KEY" + "")
      == "buy_id uuid NOT NULL UNIQUE PRIMARY KEY"
  {
  }

  lemma CustomerIdDefinition()
    ensures Definition(CustomerId, TypeName) == "customer_id uuid NOT NULL REFERENCES users(user_id)"
  {
    assert ReferenceText(CustomerId.foreignKey) == " REFERENCES " + "users" + "(" + "user_id" + ")";
    assert Definition(CustomerId, TypeName)
      == "customer_id" + " " + "uuid" + (" NOT NULL" + "" + "" + (" REFERENCES " + "users" + "(" + "user_id" + ")"));
    CustomerIdText();
  }

  lemma CustomerIdText()
    ensures "customer_id" + " " + "uuid" + (" NOT NULL" + "" + "" + (" REFERENCES " + "users" + "(" + "user_id" + ")"))
      == "customer_id uuid NOT NULL REFERENCES users(user_id)"
  {
  }

  lemma NullableDefinitions()
    ensures Definition(HasDiscount, TypeName) == "has_discount boolean NULL"
    ensures Definition(TotalPrice, TypeName) == "total_price real NULL"
    ensures Definition(Details, TypeName) == "details varchar NULL"
  {
  }

  lemma BuyDefinitions()
    ensures ColumnDefs(Buy.columns) == [
      "buy_id uuid NOT NULL UNIQUE PRIMARY KEY",
      "customer_id uuid NOT NULL REFERENCES users(user_id)",
      "has_discount boolean NULL",
      "total_price real NULL",
      "details varchar NULL"]
  {
    BuyIdDefinition();
    CustomerIdDefinition();
    NullableDefinitions();
  }

  lemma JoinFive(a: string, b: string, c: string, d: string, e: string, sep: string)
    ensures Join([a, b, c, d, e], sep) == a + sep + b + sep + c + sep + d + sep + e
  {
    JoinCons(d, [e], sep);
    JoinCons(c, [d, e], sep);
    JoinCons(b, [c, d, e], sep);
    JoinCons(a, [b, c, d, e], sep);
    assert [a] + [b, c, d, e] == [a, b, c, d, e];
  }

  lemma BuyColumnsJoined()
    ensures Join(ColumnDefs(Buy.columns), ",")
      == "buy_id uuid NOT NULL UNIQUE PRIMARY KEY" + ","
         + "customer_id uuid NOT NULL REFERENCES users(user_id)" + ","
         + "has_discount boolean NULL" + ","
         + "total_price real NULL" + ","
         + "details varchar NULL"
  {
    BuyDefinitions();
    JoinFive("buy_id uuid NOT NULL UNIQUE PRIMARY KEY", "customer_id uuid NOT NULL REFERENCES users(user_id)",
      "has_discount boolean NULL", "total_price real NULL", "details varchar NULL", ",");
  }

  /** The statement text around the `buys` column list, regrouped line by line. */
  lemma BuyStatementText(body: string)
    requires body
      == "buy_id uuid NOT NULL UNIQUE PRIMARY KEY" + ","
         + "customer_id uuid NOT NULL REFERENCES users(user_id)" + ","
         + "has_discount boolean NULL" + ","
         + "total_price real NULL" + ","
         + "details varchar NULL"
    ensures "CREATE TABLE IF NOT EXISTS " + "buys" + " (" + body + ");"
      == "CREATE TABLE IF NOT EXISTS buys ("
         + "buy_id uuid NOT NULL UNIQUE PRIMARY KEY,"
         + "customer_id uuid NOT NULL REFERENCES users(user_id),"
         + "has_discount boolean NULL,"
         + "total_price real NULL,"
         + "details varchar NULL"
         + ");"
  {
  }

  /** The `create_table` test: no constraints, so no trailing separator. */
  lemma BuyCreateTable()
    ensures CreateTableSql(Buy)
      == "CREATE TABLE IF NOT EXISTS buys ("
         + "buy_id uuid NOT NULL UNIQUE PRIMARY KEY,"
         + "customer_id uuid NOT NULL REFERENCES users(user_id),"
         + "has_discount boolean NULL,"
         + "total_price real NULL,"
         + "details varchar NULL"
         + ");"
  {
    var body := Join(ColumnDefs(Buy.columns), ",");
    BuyColumnsJoined();
    assert Join(ConstraintTexts(Buy.constraints), ",") == "";
    assert CreateTableSql(Buy) == "CREATE TABLE IF NOT EXISTS " + "buys" + " (" + body + ");";
    BuyStatementText(body);
  }

  /** A `uuid` value escapes to its hyphenated text in single quotes. */
  lemma UuidEscapes(c: Column<DbType>, u: UuidValue)
    requires c.dbType == Uuid
    ensures EscapeColumnVal(c, Plain(UuidVal(u))) == Ok("'" + UuidText(u) + "'")
  {
  }

  /** A row whose every value escapes to the given literal. */
  lemma RowEscapes(cols: seq<Column<DbType>>, vals: seq<Value>, texts: seq<string>)
    requires |vals| == |cols| == |texts| && AllImplemented(cols)
    requires forall i | 0 <= i < |cols| :: EscapeColumnVal(cols[i], vals[i]) == Ok(texts[i])
    ensures AllEscape(cols, vals) && EscapedValues(cols, vals) == texts
  {
  }

  /** The row of the `insert_single` test: no discount flag, a price of 14.56, no details. */
  function SingleRow(buyId: UuidValue, customerId: UuidValue): seq<Value>
  {
    [Plain(UuidVal(buyId)), Plain(UuidVal(customerId)), Absent(BoolType),
     Present(F32Val(Finite(false, 14, [5, 6]))), Absent(StringType)]
  }

  lemma PriceText()
    ensures FloatText(Finite(false, 14, [5, 6])) == "14.56"
  {
    assert NatText(14) == NatText(1) + [DigitChar(4)];
    assert DigitsText([5, 6]) == [DigitChar(5)] + DigitsText([6]);
  }

  lemma SingleRowEscapes(buyId: UuidValue, customerId: UuidValue)
    ensures AllImplemented(Buy.columns)
    ensures AllEscape(Buy.columns, SingleRow(buyId, customerId))
    ensures EscapedValues(Buy.columns, SingleRow(buyId, customerId))
      == ["'" + UuidText(buyId) + "'", "'" + UuidText(customerId) + "'", "NULL", "14.56", "NULL"]
  {
    var row := SingleRow(buyId, customerId);
    var texts := ["'" + UuidText(buyId) + "'", "'" + UuidText(customerId) + "'", "NULL", "14.56", "NULL"];
    assert AllImplemented(Buy.columns);
    forall i | 0 <= i < 5
      ensures EscapeColumnVal(Buy.columns[i], row[i]) == Ok(texts[i])
    {
      if i == 0 {
        UuidEscapes(BuyId, buyId);
      } else if i == 1 {
        UuidEscapes(CustomerId, customerId);
      } else if i == 3 {
        PriceText();
      }
    }
    RowEscapes(Buy.columns, row, texts);
  }

  /** The `insert_single` test: absent nullable values render as `NULL`. */
  lemma BuyInsertSingle(buyId: UuidValue, customerId: UuidValue)
    ensures AllImplemented(Buy.columns)
    ensures InsertSql(Buy, SingleRow(buyId, customerId))
      == Ok("INSERT INTO buys (" + Join(["buy_id", "customer_id", "has_discount", "total_price", "details"], ",") + ") VALUES ("
         + Join(["'" + UuidText(buyId) + "'", "'" + UuidText(customerId) + "'", "NULL", "14.56", "NULL"], ",")
         + ");")
  {
    var row := SingleRow(buyId, customerId);
    SingleRowEscapes(buyId, customerId);
    var names := Join(Names(Buy.columns), ",");
    assert Names(Buy.columns) == ["buy_id", "customer_id", "has_discount", "total_price", "details"];
    assert "INSERT INTO " + "buys" + " (" == "INSERT INTO buys (";
    assert InsertSql(Buy, row)
      == Ok("INSERT INTO " + "buys" + " (" + names + ") VALUES (" + Join(EscapedValues(Buy.columns, row), ",") + ");");
  }

  /**
   * The row of the `insert_with_all_values` test, every optional value
   * present; the details text is any string, since `varchar` has no bound.
   */
  function FullRow(buyId: UuidValue, customerId: UuidValue, details: string): seq<Value>
  {
    [Plain(UuidVal(buyId)), Plain(UuidVal(customerId)), Present(BoolVal(true)),
     Present(F32Val(Finite(false, 18899, [9]))), Present(StringVal(details))]
  }

  lemma FullPriceText()
    ensures FloatText(Finite(false, 18899, [9])) == "18899.9"
  {
    assert NatText(18899) == NatText(1889) + [DigitChar(9)];
    assert NatText(1889) == NatText(188) + [DigitChar(9)];
    assert NatText(188) == NatText(18) + [DigitChar(8)];
    assert NatText(18) == NatText(1) + [DigitChar(8)];
  }

  lemma FullRowOptionalEscapes(details: string)
    ensures EscapeColumnVal(HasDiscount, Present(BoolVal(true))) == Ok("true")
    ensures EscapeColumnVal(TotalPrice, Present(F32Val(Finite(false, 18899, [9])))) == Ok("18899.9")
    ensures EscapeColumnVal(Details, Present(StringVal(details))) == Ok("'" + details + "'")
  {
    FullPriceText();
  }

  lemma FullRowEscapes(buyId: UuidValue, customerId: UuidValue, details: string)
    ensures AllImplemented(Buy.columns)
    ensures AllEscape(Buy.columns, FullRow(buyId, customerId, details))
    ensures EscapedValues(Buy.columns, FullRow(buyId, customerId, details))
      == ["'" + UuidText(buyId) + "'", "'" + UuidText(customerId) + "'", "true", "18899.9", "'" + details + "'"]
  {
    FullRowOptionalEscapes(details);
    var row := FullRow(buyId, customerId, details);
    var texts := ["'" + UuidText(buyId) + "'", "'" + UuidText(customerId) + "'", "true", "18899.9", "'" + details + "'"];
    assert AllImplemented(Buy.columns);
    forall i | 0 <= i < 5
      ensures EscapeColumnVal(Buy.columns[i], row[i]) == Ok(texts[i])
    {
      if i == 0 {
        UuidEscapes(BuyId, buyId);
      } else if i == 1 {
        UuidEscapes(CustomerId, customerId);
      } else if i == 2 {
        assert row[2] == Present(BoolVal(true));
      } else if i == 3 {
        assert row[3] == Present(F32Val(Finite(false, 18899, [9])));
      } else {
        assert row[4] == Present(StringVal(details));
      }
    }
    RowEscapes(Buy.columns, row, texts);
  }

  /** The `insert_with_all_values` test: present optional values render as their own literals. */
  lemma BuyInsertAllValues(buyId: UuidValue, customerId: UuidValue, details: string)
    ensures AllImplemented(Buy.columns)
    ensures InsertSql(Buy, FullRow(buyId, customerId, details))
      == Ok("INSERT INTO buys (" + Join(["buy_id", "customer_id", "has_discount", "total_price", "details"], ",") + ") VALUES ("
         + Join(["'" + UuidText(buyId) + "'", "'" + UuidText(customerId) + "'", "true", "18899.9", "'" + details + "'"], ",")
         + ");")
  {
    var row := FullRow(buyId, customerId, details);
    FullRowEscapes(buyId, customerId, details);
    var names := Join(Names(Buy.columns), ",");
    assert Names(Buy.columns) == ["buy_id", "customer_id", "has_discount", "total_price", "details"];
    assert "INSERT INTO " + "buys" + " (" == "INSERT INTO buys (";
    assert InsertSql(Buy, row)
      == Ok("INSERT INTO " + "buys" + " (" + names + ") VALUES (" + Join(EscapedValues(Buy.columns, row), ",") + ");");
  }

  /**
   * A row whose `buy_id` is missing and whose `details` has the wrong type
   * fails on `buy_id`, the first column that rejects its value.
   */
  lemma BuyInsertFirstFailure(customerId: UuidValue)
    ensures AllImplemented(Buy.columns)
    ensures InsertSql(Buy, [Absent(UuidType), Plain(UuidVal(customerId)), Absent(BoolType), Absent(F32Type), Plain(I32Val(3))])
      == Err(ColumnError("buy_id", Absent(UuidType)))
  {
    var row := [Absent(UuidType), Plain(UuidVal(customerId)), Absent(BoolType), Absent(F32Type), Plain(I32Val(3))];
    assert AllImplemented(Buy.columns);
    assert FirstFailure(Buy.columns, row, 0);
    var r := InsertSql(Buy, row);
    var k :| FirstFailure(Buy.columns, row, k) && r.error == ColumnError(Buy.columns[k].name, row[k]);
    FirstFailureUnique(Buy.columns, row, 0, k);
  }
}
