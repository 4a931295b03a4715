/** Column types: the ones the HTTP API accepts, and the names it gives back for them. */
module Columns {
  import opened Results

  /** Arrow types. `Foreign` stands for every type outside the six the API supports; some of
      those are still types the proof library can commit to. */
  datatype DataType =
    | Boolean | Int8 | Int16 | Int32 | Int64 | Utf8
    | Foreign(name: string, provable: bool)

  datatype Field = Field(name: string, dataType: DataType)

  type Schema = seq<Field>

  /** SQL type names after parsing; length and display arguments are ignored. */
  datatype SqlType =
    | SqlBoolean | SqlBool | SqlTinyInt | SqlSmallInt | SqlInt | SqlInteger | SqlBigInt
    | SqlVarchar | SqlText | SqlString | SqlOther

  /** The arrow type a SQL type name is stored as. */
  function ParseColumnType(parsed: Option<SqlType>): Option<DataType> {
    match parsed
    case None => None
    case Some(SqlBoolean) => Some(Boolean)
    case Some(SqlBool) => Some(Boolean)
    case Some(SqlTinyInt) => Some(Int8)
    case Some(SqlSmallInt) => Some(Int16)
    case Some(SqlInt) => Some(Int32)
    case Some(SqlInteger) => Some(Int32)
    case Some(SqlBigInt) => Some(Int64)
    case Some(SqlVarchar) => Some(Utf8)
    case Some(SqlText) => Some(Utf8)
    case Some(SqlString) => Some(Utf8)
    case Some(SqlOther) => None
  }

  /** The SQL type name a stored type is described with. */
  function ColumnTypeName(dataType: DataType): Option<string> {
    match dataType
    case Boolean => Some("BOOLEAN")
    case Int8 => Some("TINYINT")
    case Int16 => Some("SMALLINT")
    case Int32 => Some("INT")
    case Int64 => Some("BIGINT")
    case Utf8 => Some("VARCHAR")
    case Foreign(_, _) => None
  }

  /** Types the proof library has a column type for. */
  predicate Provable(dataType: DataType) {
    dataType.Foreign? ==> dataType.provable
  }

  predicate Supported(dataType: DataType) {
    !dataType.Foreign?
  }

  predicate AllProvable(schema: Schema) {
    forall i :: 0 <= i < |schema| ==> Provable(schema[i].dataType)
  }

  predicate AllSupported(schema: Schema) {
    forall i :: 0 <= i < |schema| ==> Supported(schema[i].dataType)
  }
}
