/** The symbols the DDL executor inserts into the symbol table. The table
    itself is represented by the sequence of symbols a statement adds. */
module Symbols {

  datatype Option<+T> = None | Some(value: T)

  /** The kind tag every symbol carries (`SymbolType`). */
  datatype SymbolType = DatabaseKind | TableKind | FieldKind | TypeKind

  /** An expression node of the syntax tree, kept unevaluated; how the tree
      evaluates it is supplied from outside (see `Create.Session`). */
  datatype Expr = Expr(source: string)

  /** The literal an expression evaluates to. */
  datatype Value = Text(s: string) | Number(n: int) | Boolean(b: bool) | Null

  /** A column definition. The parser builds it with no table name and
      ordinal 0; CREATE TABLE later stamps the table name, the final ordinal
      and the FIELD kind on it. */
  datatype FieldSymbol = FieldSymbol(
    dbName: string,
    tableName: Option<string>,
    fieldIndex: int,
    name: string,
    fieldType: string,
    length: Option<int>,
    allowsNull: bool,
    isPk: bool,
    kind: SymbolType)

  /** The database selected when a statement runs (`get_current_db()`). */
  datatype CurrentDb = CurrentDb(name: string, id: int)

  datatype Symbol =
    | TableSymbol(dbId: int, name: string, check: Option<Expr>)
    | FieldEntry(field: FieldSymbol)
    | TypeSymbol(name: string, values: seq<Value>)

  /** Two field symbols describe the same column, whatever table name,
      ordinal and kind tag they carry. */
  predicate SameColumn(f: FieldSymbol, g: FieldSymbol) {
    && f.dbName == g.dbName
    && f.name == g.name
    && f.fieldType == g.fieldType
    && f.length == g.length
    && f.allowsNull == g.allowsNull
    && f.isPk == g.isPk
  }
}
