/**
 * The most common Postgres scalar types (`DbType`), their SQL names, and the
 * codec that turns a runtime value into a SQL literal for a column of that type.
 *
 * The Rust code receives the value as `&dyn Any` and recovers its concrete type by
 * downcasting. Here the value is a tagged union: `Plain(h)` is a bare host value
 * of Rust type `TypeOf(h)`, `Present(h)` is `Some(h)` of type `Option<TypeOf(h)>`,
 * `Absent(ty)` is `None` of type `Option<ty>`, and `Unsupported` is a value of
 * any other Rust type. A failed downcast is a tag mismatch.
 */
module Types {
  import opened Wrappers
  import opened Strings

  type U8 = x: int | 0 <= x < 0x100
  type I16 = x: int | -0x8000 <= x < 0x8000
  type I32 = x: int | -0x8000_0000 <= x < 0x8000_0000
  type I64 = x: int | -0x8000_0000_0000_0000 <= x < 0x8000_0000_0000_0000
  type U128 = x: int | 0 <= x < 0x1_0000_0000_0000_0000_0000_0000_0000_0000

  /** The column types of types.rs. `Date` and `Json` have no codec yet. */
  datatype DbType =
    | Boolean
    | Int16
    | Int32
    | Int64
    | Uuid
    | Float
    | Double
    | Date
    | Json
    | Char(size: Option<U8>)
    | VarChar(size: Option<U8>)
    | String

  // ---------------------------------------------------------------------------
  // Host values
  // ---------------------------------------------------------------------------

  /** A `uuid::Uuid`: 128 bits. */
  datatype UuidValue = UuidValue(bits: U128)

  /**
   * An `f32` or `f64` as the decimal that Rust's `Display` prints for it: a sign,
   * the integral digits and the fractional digits (none for an integral value),
   * or one of the non-finite values.
   */
  datatype Float =
    | Finite(negative: bool, whole: nat, fraction: seq<Digit>)
    | Infinite(negative: bool)
    | NaN

  /** A value of one of the Rust types the codec recognises. */
  datatype Host =
    | BoolVal(b: bool)
    | I16Val(i16: I16)
    | I32Val(i32: I32)
    | I64Val(i64: I64)
    | UuidVal(uuid: UuidValue)
    | F32Val(f32: Float)
    | F64Val(f64: Float)
    | CharVal(c: char)
    | StringVal(s: string)

  /** The Rust types of `Host` values. */
  datatype HostType = BoolType | I16Type | I32Type | I64Type | UuidType | F32Type | F64Type | CharType | StringType

  /** The value handed to the codec, in place of `&dyn Any`. */
  datatype Value =
    | Plain(h: Host)
    | Present(h: Host)
    | Absent(ty: HostType)
    | Unsupported(rustType: string)

  function TypeOf(h: Host): HostType
  {
    match h
    case BoolVal(_) => BoolType
    case I16Val(_) => I16Type
    case I32Val(_) => I32Type
    case I64Val(_) => I64Type
    case UuidVal(_) => UuidType
    case F32Val(_) => F32Type
    case F64Val(_) => F64Type
    case CharVal(_) => CharType
    case StringVal(_) => StringType
  }

  /** `val.downcast_ref::<T>()` for the Rust type `ty`. */
  function DowncastPlain(v: Value, ty: HostType): Option<Host>
  {
    if v.Plain? && TypeOf(v.h) == ty then Some(v.h) else None
  }

  /** `val.downcast_ref::<Option<T>>()` for the Rust type `ty`. */
  function DowncastOption(v: Value, ty: HostType): Option<Option<Host>>
  {
    match v
    case Present(h) => if TypeOf(h) == ty then Some(Some(h)) else None
    case Absent(t) => if t == ty then Some(None) else None
    case _ => None
  }

  // ---------------------------------------------------------------------------
  // Display of host values
  // ---------------------------------------------------------------------------

  function DigitsText(ds: seq<Digit>): (r: string)
    ensures |r| == |ds| && AllDigits(r)
  {
    if ds == [] then "" else [DigitChar(ds[0])] + DigitsText(ds[1..])
  }

  function FloatText(f: Float): string
  {
    match f
    case Finite(negative, whole, fraction) =>
      (if negative then "-" else "") + NatText(whole) + (if fraction == [] then "" else "." + DigitsText(fraction))
    case Infinite(negative) => if negative then "-inf" else "inf"
    case NaN => "NaN"
  }

  /** The hyphenated lower-case form `uuid::Uuid` displays: 8-4-4-4-12 hex digits. */
  function UuidText(u: UuidValue): (r: string)
    ensures |r| == 36
  {
    var h := HexText(u.bits, 32);
    h[..8] + "-" + h[8..12] + "-" + h[12..16] + "-" + h[16..20] + "-" + h[20..]
  }

  /** `format!("{}", val)` of a host value. */
  function HostText(h: Host): string
  {
    match h
    case BoolVal(b) => if b then "true" else "false"
    case I16Val(i) => IntText(i)
    case I32Val(i) => IntText(i)
    case I64Val(i) => IntText(i)
    case UuidVal(u) => UuidText(u)
    case F32Val(f) => FloatText(f)
    case F64Val(f) => FloatText(f)
    case CharVal(c) => [c]
    case StringVal(s) => s
  }

  // ---------------------------------------------------------------------------
  // The codec
  // ---------------------------------------------------------------------------

  /** The types whose codec is written; `Date` and `Json` end in `todo!()`. */
  predicate Implemented(t: DbType)
  {
    !t.Date? && !t.Json?
  }

  /** The Rust type a column of type `t` downcasts its value to. */
  function HostTypeFor(t: DbType): HostType
    requires Implemented(t)
  {
    match t
    case Boolean => BoolType
    case Int16 => I16Type
    case Int32 => I32Type
    case Int64 => I64Type
    case Uuid => UuidType
    case Float => F32Type
    case Double => F64Type
    case Char(_) => StringType
    case VarChar(_) => StringType
    case String => StringType
  }

  /** The string-like types, whose literals are wrapped in single quotes. */
  predicate Quoted(t: DbType)
  {
    t.Uuid? || t.Char? || t.VarChar? || t.String?
  }

  /** The length bound of `char(n)`; a bare `char` means `char(1)`. */
  function CharBound(size: Option<U8>): nat
  {
    match size
    case Some(n) => n
    case None => 1
  }

  /** `DbType::format`: the literal for a value that passed the type's checks. */
  function Format(t: DbType, h: Host): string
    requires Implemented(t)
  {
    if Quoted(t) then "'" + HostText(h) + "'" else HostText(h)
  }

  /** `DbType::format_opt`: `NULL` for an absent value. */
  function FormatOpt(t: DbType, o: Option<Host>): string
    requires Implemented(t)
  {
    match o
    case Some(h) => Format(t, h)
    case None => "NULL"
  }

  /**
   * Which bare host values a column of type `t` accepts, stated without
   * downcasts: the type's own host type, a single `char` for a one-character
   * `char` column, and strings within the byte bound of `char`/`varchar`.
   */
  predicate Accepts(t: DbType, h: Host)
    requires Implemented(t)
  {
    match t
    case Char(size) =>
      (CharBound(size) == 1 && h.CharVal?) || (h.StringVal? && Utf8Len(h.s) <= CharBound(size))
    case VarChar(size) =>
      h.StringVal? && (size.None? || Utf8Len(h.s) <= size.value)
    case _ => TypeOf(h) == HostTypeFor(t)
  }

  /** Which `None::<ty>` values a column of type `t` renders as `NULL`. */
  predicate AcceptsAbsent(t: DbType, ty: HostType)
    requires Implemented(t)
  {
    ty == HostTypeFor(t) || (t.Char? && CharBound(t.size) == 1 && ty == CharType)
  }

  /**
   * `DbType::escape_val`: the literal for a bare value of the column's own Rust
   * type, or `None` for any other shape (an `Option` included) and for a string
   * longer, in UTF-8 bytes, than a `char`/`varchar` bound.
   */
  function EscapeVal(t: DbType, v: Value): (r: Option<string>)
    requires Implemented(t)
    ensures r.Some? <==> v.Plain? && Accepts(t, v.h)
    ensures r.Some? ==> r.value == Format(t, v.h)
  {
    match t
    case Char(size) =>
      var n := CharBound(size);
      if n == 1 && DowncastPlain(v, CharType).Some? then Some(Format(t, v.h))
      else (
        match DowncastPlain(v, StringType)
        case None => None
        case Some(h) => if Utf8Len(h.s) > n then None else Some(Format(t, h)))
    case VarChar(size) => (
      match DowncastPlain(v, StringType)
      case None => None
      case Some(h) => if size.Some? && Utf8Len(h.s) > size.value then None else Some(Format(t, h)))
    case Boolean | Int16 | Int32 | Int64 | Uuid | Float | Double | String =>
      match DowncastPlain(v, HostTypeFor(t))
      case None => None
      case Some(h) => Some(Format(t, h))
  }

  /**
   * `DbType::escape_nullable_val`: the bare form first; failing that, the value
   * read as an `Option` of the column's Rust type, `NULL` when absent. An absent
   * string counts as length 0 against a `char`/`varchar` bound.
   */
  function EscapeNullableVal(t: DbType, v: Value): (r: Option<string>)
    requires Implemented(t)
    ensures EscapeVal(t, v).Some? ==> r == EscapeVal(t, v)
    ensures v.Plain? ==> r == EscapeVal(t, v)
    ensures v.Present? ==> r == EscapeVal(t, Plain(v.h))
    ensures v.Absent? ==> r == if AcceptsAbsent(t, v.ty) then Some("NULL") else None
    ensures v.Unsupported? ==> r == None
  {
    var bare := EscapeVal(t, v);
    if bare.Some? then bare
    else
      match t
      case Char(size) =>
        var n := CharBound(size);
        if n == 1 && DowncastOption(v, CharType).Some? then Some(FormatOpt(t, DowncastOption(v, CharType).value))
        else (
          match DowncastOption(v, StringType)
          case None => None
          case Some(o) =>
            var len := if o.Some? then Utf8Len(o.value.s) else 0;
            if len > n then None else Some(FormatOpt(t, o)))
      case VarChar(size) => (
        match DowncastOption(v, StringType)
        case None => None
        case Some(o) =>
          var len := if o.Some? then Utf8Len(o.value.s) else 0;
          if size.Some? && len > size.value then None else Some(FormatOpt(t, o)))
      case Boolean | Int16 | Int32 | Int64 | Uuid | Float | Double | String =>
        match DowncastOption(v, HostTypeFor(t))
        case None => None
        case Some(o) => Some(FormatOpt(t, o))
  }

  // ---------------------------------------------------------------------------
  // Properties of the codec
  // ---------------------------------------------------------------------------

  predicate NoQuote(s: string)
  {
    forall i | 0 <= i < |s| :: s[i] != '\''
  }

  lemma NumberTextHasNoQuote(h: Host)
    requires !h.UuidVal? && !h.CharVal? && !h.StringVal?
    ensures NoQuote(HostText(h))
    ensures |HostText(h)| > 0
    ensures var c := HostText(h)[0]; IsDigitChar(c) || c == '-' || c == 't' || c == 'f' || c == 'i'
                                      || (c == 'N' && |HostText(h)| == 3)
  {
    match h
    case F32Val(f) => FloatTextShape(f);
    case F64Val(f) => FloatTextShape(f);
    case _ =>
  }

  lemma FloatTextShape(f: Float)
    ensures NoQuote(FloatText(f)) && |FloatText(f)| > 0
    ensures var c := FloatText(f)[0]; IsDigitChar(c) || c == '-' || c == 'i' || (c == 'N' && |FloatText(f)| == 3)
  {
    if f.Finite? {
      var frac := if f.fraction == [] then "" else "." + DigitsText(f.fraction);
      assert NoQuote(frac);
    }
  }

  /**
   * The literal of an accepted bare value: unquoted numbers and booleans contain
   * no quote at all; string-like values are the payload between single quotes,
   * copied verbatim, so a quote inside the payload is not doubled.
   */
  lemma EscapedLiteralShape(t: DbType, v: Value)
    requires Implemented(t) && EscapeVal(t, v).Some?
    ensures var r := EscapeVal(t, v).value;
      if Quoted(t) then
        |r| >= 2 && r[0] == '\'' && r[|r| - 1] == '\'' && r[1..|r| - 1] == HostText(v.h)
      else
        r == HostText(v.h) && NoQuote(r)
  {
    if !Quoted(t) {
      NumberTextHasNoQuote(v.h);
    }
  }

  /** A bare value that escapes never escapes to the `NULL` keyword. */
  lemma EscapedValueIsNeverNull(t: DbType, v: Value)
    requires Implemented(t)
    ensures EscapeVal(t, v) != Some("NULL")
  {
    if EscapeVal(t, v).Some? {
      var r := EscapeVal(t, v).value;
      if Quoted(t) {
        assert r[0] == '\'';
      } else {
        NumberTextHasNoQuote(v.h);
        assert r == HostText(v.h);
        assert "NULL"[0] == 'N' && |"NULL"| == 4;
      }
    }
  }

  /** The payload's quote survives unescaped: `O'Brien` becomes `'O'Brien'`. */
  lemma EmbeddedQuoteNotDoubled()
    ensures EscapeVal(String, Plain(StringVal("O'Brien"))) == Some("'O'Brien'")
  {
    assert Accepts(String, StringVal("O'Brien"));
    assert "'" + "O'Brien" + "'" == "'O'Brien'";
  }

  /** `varchar(n)` accepts exactly the strings of at most `n` bytes; `varchar` any string. */
  lemma VarCharBound(size: Option<U8>, s: string)
    ensures EscapeVal(VarChar(size), Plain(StringVal(s))).Some? <==> size.None? || Utf8Len(s) <= size.value
  {
  }

  /**
   * `char(n)` with its bound defaulting to 1: a single `char` is accepted only
   * when the bound is 1, and a string only within the bound.
   */
  lemma CharBoundRule(size: Option<U8>, c: char, s: string)
    ensures EscapeVal(Char(size), Plain(CharVal(c))).Some? <==> CharBound(size) == 1
    ensures EscapeVal(Char(size), Plain(StringVal(s))).Some? <==> Utf8Len(s) <= CharBound(size)
    ensures EscapeVal(Char(None), Plain(StringVal("ab"))) == None
  {
  }

  // ---------------------------------------------------------------------------
  // Type names
  // ---------------------------------------------------------------------------

  /** `Display for DbType`: the SQL name of the type. */
  function TypeName(t: DbType): string
  {
    match t
    case Boolean => "boolean"
    case Int16 => "smallint"
    case Int32 => "integer"
    case Int64 => "bigint"
    case Uuid => "uuid"
    case Float => "real"
    case Double => "double precision"
    case Date => "date"
    case Json => "json"
    case Char(n) => if n.Some? then "char(" + NatText(n.value) + ")" else "char"
    case VarChar(n) => if n.Some? then "varchar(" + NatText(n.value) + ")" else "varchar"
    case String => "text"
  }

  function ParseBound(s: string): Option<U8>
  {
    if AllDigits(s) && |s| >= 1 && ParseNat(s) < 0x100 then Some(ParseNat(s)) else None
  }

  /** Reads a SQL type name back; the inverse of `TypeName`. */
  function ParseTypeName(s: string): Option<DbType>
  {
    if s == "boolean" then Some(Boolean)
    else if s == "smallint" then Some(Int16)
    else if s == "integer" then Some(Int32)
    else if s == "bigint" then Some(Int64)
    else if s == "uuid" then Some(Uuid)
    else if s == "real" then Some(Float)
    else if s == "double precision" then Some(Double)
    else if s == "date" then Some(Date)
    else if s == "json" then Some(Json)
    else if s == "char" then Some(Char(None))
    else if s == "varchar" then Some(VarChar(None))
    else if s == "text" then Some(String)
    else if |s| > 6 && s[..5] == "char(" && s[|s| - 1] == ')' && ParseBound(s[5..|s| - 1]).Some? then
      Some(Char(ParseBound(s[5..|s| - 1])))
    else if |s| > 9 && s[..8] == "varchar(" && s[|s| - 1] == ')' && ParseBound(s[8..|s| - 1]).Some? then
      Some(VarChar(ParseBound(s[8..|s| - 1])))
    else None
  }

  lemma CharNameRoundTrip(n: U8)
    ensures ParseTypeName(TypeName(Char(Some(n)))) == Some(Char(Some(n)))
  {
    var s := TypeName(Char(Some(n)));
    var digits := NatText(n);
    assert s == "char(" + digits + ")";
    assert |s| >= 6 && s[4] == '(' && s[|s| - 1] == ')';
    assert s[..5] == "char(" && s[5..|s| - 1] == digits;
    ParseNatText(n);
  }

  lemma VarCharNameRoundTrip(n: U8)
    ensures ParseTypeName(TypeName(VarChar(Some(n)))) == Some(VarChar(Some(n)))
  {
    var s := TypeName(VarChar(Some(n)));
    var digits := NatText(n);
    assert s == "varchar(" + digits + ")";
    assert |s| >= 9 && s[0] == 'v' && s[4] == 'h' && s[7] == '(' && s[|s| - 1] == ')';
    assert s[..5] != "char(";
    assert s[..8] == "varchar(" && s[8..|s| - 1] == digits;
    ParseNatText(n);
  }

  /** Every type name reads back as its type, so no two types share a name. */
  lemma TypeNameRoundTrip(t: DbType)
    ensures ParseTypeName(TypeName(t)) == Some(t)
  {
    match t
    case Char(Some(n)) => CharNameRoundTrip(n);
    case VarChar(Some(n)) => VarCharNameRoundTrip(n);
    case _ =>
  }

  lemma TypeNameInjective(a: DbType, b: DbType)
    ensures TypeName(a) == TypeName(b) ==> a == b
  {
    TypeNameRoundTrip(a);
    TypeNameRoundTrip(b);
  }
}
