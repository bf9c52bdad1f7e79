/** The DDL statements CREATE TYPE ... AS ENUM, CREATE DATABASE and CREATE
    TABLE, and what executing each one does: the storage calls it issues, the
    symbols it adds to the symbol table, and the reply or error it ends in. */
module Create {
  import opened Errors
  import opened Symbols
  import opened Storage
  import opened Text
  import opened PrimaryKeys
  import opened Inheritance

  datatype Reply = Message(text: string) | Lines(lines: seq<string>)

  /** The effect of executing one statement: storage calls in the order they
      were issued, symbols in the order they were added, whether the database
      symbols were reloaded from storage, and the reply or the error raised. */
  datatype Execution = Execution(
    calls: seq<StorageCall>,
    added: seq<Symbol>,
    reloaded: bool,
    outcome: Result<Reply>)

  /** The statement nodes. An enum's name is upper-cased when the node is
      built (see `NewCreateEnum`); the fields of a table are the drafts the
      parser built from the column definitions. */
  datatype Statement =
    | CreateEnum(name: string, values: seq<Expr>)
    | CreateDatabase(name: string, owner: Option<string>, mode: Option<int>, replace: bool, ifNotExists: Option<bool>)
    | CreateTable(name: string, inheritsFrom: Option<string>, fields: seq<FieldSymbol>, check: Option<Expr>)

  /** What a statement reads from its surroundings: the selected database,
      how the tree evaluates an expression, and the fields the symbol table
      lists for a table (`get_fields_from_table`). */
  datatype Session = Session(
    db: CurrentDb,
    eval: Expr -> Value,
    fieldsOf: string -> seq<FieldSymbol>)

  // ---------------------------------------------------------------------
  // CREATE TYPE ... AS ENUM

  /** Building the node upper-cases the type name. Executing an enum node
      upper-cases its name again, which changes nothing for a built node
      (`Text.ToUpperIdempotent`). */
  function NewCreateEnum(name: string, values: seq<Expr>): Statement {
    CreateEnum(ToUpper(name), values)
  }

  /** Evaluating the value expressions one after the other, in list order. */
  function EvaluateAll(values: seq<Expr>, eval: Expr -> Value): (results: seq<Value>)
    ensures |results| == |values|
    ensures forall i :: 0 <= i < |values| ==> results[i] == eval(values[i])
  {
    if values == [] then [] else [eval(values[0])] + EvaluateAll(values[1..], eval)
  }

  /** An enum type touches no storage and adds one type symbol holding the
      node's name and the evaluated values in list order. */
  function ExecuteCreateEnum(name: string, values: seq<Expr>, eval: Expr -> Value): (e: Execution)
    ensures e.calls == [] && !e.reloaded
    ensures |e.added| == 1 && e.added[0].TypeSymbol? && e.added[0].name == name
    ensures |e.added[0].values| == |values|
    ensures forall i :: 0 <= i < |values| ==> e.added[0].values[i] == eval(values[i])
    ensures e.outcome == Ok(Message("[AST] ENUM " + name + " created."))
  {
    Execution([], [TypeSymbol(name, EvaluateAll(values, eval))], false,
              Ok(Message("[AST] ENUM " + name + " created.")))
  }

  // ---------------------------------------------------------------------
  // CREATE [OR REPLACE] DATABASE [IF NOT EXISTS]

  function DatabaseCreated(name: string): string {
    "Database '" + name + "' was created successfully!"
  }

  /** Whether status 2 is reported as a duplicate: the source tests
      `exists == False`, which holds only for an explicit false flag; an
      absent flag (`None`) does not compare equal to False. */
  predicate RejectsDuplicate(ifNotExists: Option<bool>) {
    ifNotExists == Some(false)
  }

  /** Status 1 is a system error; status 2 is a duplicate when the IF NOT
      EXISTS flag is explicitly false; every other status is success, which
      reloads the database symbols from storage. With OR REPLACE, a drop of
      the same name comes first and its status is never looked at. */
  function ExecuteCreateDatabase(name: string, replace: bool, ifNotExists: Option<bool>, r: Responses): (e: Execution)
    ensures |e.calls| == (if replace then 2 else 1)
    ensures e.calls[|e.calls| - 1] == CreateDatabaseCall(name)
    ensures replace ==> e.calls[0] == DropDatabaseCall(name)
    ensures e.added == []
    ensures e.reloaded <==> e.outcome.Ok?
    ensures r.createStatus == 1 ==> e.outcome == Err(Error(0, 0, Runtime, SystemError))
    ensures r.createStatus == 2 && ifNotExists == Some(false) ==>
      e.outcome == Err(Error(0, 0, Runtime, DuplicateDatabase))
    ensures e.outcome.Err? <==> (r.createStatus == 1 || (r.createStatus == 2 && ifNotExists == Some(false)))
    ensures e.outcome.Ok? ==> e.outcome.value == Lines([DatabaseCreated(name)])
  {
    var calls := (if replace then [DropDatabaseCall(name)] else []) + [CreateDatabaseCall(name)];
    if r.createStatus == 1 then
      Execution(calls, [], false, Err(RuntimeError(SystemError)))
    else if r.createStatus == 2 && RejectsDuplicate(ifNotExists) then
      Execution(calls, [], false, Err(RuntimeError(DuplicateDatabase)))
    else
      Execution(calls, [], true, Ok(Lines([DatabaseCreated(name)])))
  }

  // ---------------------------------------------------------------------
  // CREATE TABLE

  /** `f` is the column `def` as added to table `table` at ordinal `index`. */
  predicate StampedAs(f: FieldSymbol, def: FieldSymbol, table: string, index: int) {
    && f.tableName == Some(table)
    && f.fieldIndex == index
    && f.kind == FieldKind
    && SameColumn(f, def)
  }

  /** Numbering the fields from `start` on, in list order, and stamping each
      with the table name and the FIELD kind. */
  function StampFrom(fields: seq<FieldSymbol>, table: string, start: nat): (stamped: seq<FieldSymbol>)
    ensures |stamped| == |fields|
    ensures forall i :: 0 <= i < |fields| ==> StampedAs(stamped[i], fields[i], table, start + i)
  {
    if fields == [] then []
    else
      [fields[0].(tableName := Some(table), fieldIndex := start, kind := FieldKind)]
      + StampFrom(fields[1..], table, start + 1)
  }

  function FieldEntries(fields: seq<FieldSymbol>): seq<Symbol> {
    seq(|fields|, i requires 0 <= i < |fields| => FieldEntry(fields[i]))
  }

  function TableCreated(name: string): string {
    "Table: " + name + " created."
  }

  /** The symbols a completed CREATE TABLE adds: the table symbol first,
      then one field symbol per field, numbered from 0 in field order and
      stamped with the table name and the FIELD kind. */
  function TableSymbols(db: CurrentDb, name: string, fields: seq<FieldSymbol>,
                        check: Option<Expr>): (added: seq<Symbol>)
    ensures |added| == 1 + |fields|
    ensures added[0] == TableSymbol(db.id, name, check)
    ensures forall k :: 1 <= k < |added| ==>
      added[k].FieldEntry? && StampedAs(added[k].field, fields[k - 1], name, k - 1)
  {
    var stamped := StampFrom(fields, name, 0);
    var added := [TableSymbol(db.id, name, check)] + FieldEntries(stamped);
    assert forall k :: 1 <= k < |added| ==> added[k] == FieldEntry(stamped[k - 1]);
    added
  }

  /** The storage calls of a completed CREATE TABLE: `createTable` with the
      field count, then `alterAddPK` with the ascending primary-key ordinals
      exactly when some field is a primary key. */
  function TableCalls(db: CurrentDb, name: string, fields: seq<FieldSymbol>): (calls: seq<StorageCall>)
    ensures 1 <= |calls| <= 2 && calls[0] == CreateTableCall(db.name, name, |fields|)
    ensures |calls| == 2 <==> exists i :: 0 <= i < |fields| && fields[i].isPk
    ensures |calls| == 2 ==>
      && calls[1].AlterAddPKCall?
      && calls[1].dbName == db.name
      && calls[1].table == name
      && IsPkOrdinalList(fields, calls[1].keys)
  {
    var keys := PkOrdinals(fields);
    NoKeysIffNoPkField(fields);
    [CreateTableCall(db.name, name, |fields|)]
      + (if |keys| > 0 then [AlterAddPKCall(db.name, name, keys)] else [])
  }

  /** Statuses 1, 2 and 3 of `createTable` each raise their own error and
      leave everything else undone: no key registration, no table symbol, no
      field symbol. Every other status completes the table. */
  function ExecuteCreateTable(db: CurrentDb, name: string, inheritsFrom: Option<string>,
                              own: seq<FieldSymbol>, check: Option<Expr>,
                              fieldsOf: string -> seq<FieldSymbol>, r: Responses): (e: Execution)
    ensures 1 <= |e.calls| && e.calls[0] == CreateTableCall(db.name, name, |ResolveFields(own, inheritsFrom, fieldsOf)|)
    ensures !e.reloaded
    ensures r.createStatus == 1 ==> e.outcome == Err(Error(0, 0, Runtime, SystemError))
    ensures r.createStatus == 2 ==> e.outcome == Err(Error(0, 0, Runtime, DatabaseDoesNotExist))
    ensures r.createStatus == 3 ==> e.outcome == Err(Error(0, 0, Runtime, DuplicateTable))
    ensures e.outcome.Err? <==> r.createStatus in {1, 2, 3}
    ensures e.outcome.Err? ==> e.calls == [e.calls[0]] && e.added == []
    ensures e.outcome.Ok? ==> e.outcome.value == Message(TableCreated(name))
    ensures e.outcome.Ok? ==> e.calls == TableCalls(db, name, ResolveFields(own, inheritsFrom, fieldsOf))
    ensures e.outcome.Ok? ==> e.added == TableSymbols(db, name, ResolveFields(own, inheritsFrom, fieldsOf), check)
    ensures forall k :: 1 <= k < |e.added| ==> e.added[k].FieldEntry?
  {
    var fields := ResolveFields(own, inheritsFrom, fieldsOf);
    var create := CreateTableCall(db.name, name, |fields|);
    if r.createStatus == 1 then
      Execution([create], [], false, Err(RuntimeError(SystemError)))
    else if r.createStatus == 2 then
      Execution([create], [], false, Err(RuntimeError(DatabaseDoesNotExist)))
    else if r.createStatus == 3 then
      Execution([create], [], false, Err(RuntimeError(DuplicateTable)))
    else
      Execution(TableCalls(db, name, fields), TableSymbols(db, name, fields, check),
                false, Ok(Message(TableCreated(name))))
  }

  // ---------------------------------------------------------------------
  // Dispatch

  /** Executing a statement. A failed statement adds no symbol and reloads
      nothing; only CREATE DATABASE reloads, only CREATE TABLE adds a table
      symbol, and an enum never reaches storage. */
  function Execute(s: Statement, session: Session, r: Responses): (e: Execution)
    ensures e.outcome.Err? ==> e.added == [] && !e.reloaded
    ensures e.reloaded ==> s.CreateDatabase?
    ensures s.CreateEnum? ==> e.calls == [] && e.outcome.Ok?
    ensures s.CreateEnum? ==> |e.added| == 1 && e.added[0].TypeSymbol? && forall i :: 0 <= i < |e.added[0].name| ==> !IsLower(e.added[0].name[i])
    ensures forall k :: 0 <= k < |e.added| && e.added[k].TableSymbol? ==> s.CreateTable? && k == 0
  {
    match s
    case CreateEnum(name, values) =>
      ExecuteCreateEnum(ToUpper(name), values, session.eval)
    case CreateDatabase(name, _, _, replace, ifNotExists) =>
      ExecuteCreateDatabase(name, replace, ifNotExists, r)
    case CreateTable(name, inheritsFrom, fields, check) =>
      ExecuteCreateTable(session.db, name, inheritsFrom, fields, check, session.fieldsOf, r)
  }

  // ---------------------------------------------------------------------
  // Properties relating several executions

  /** The enum's type symbol is stored under the upper-cased name, so names
      differing only in letter case define the same type name. */
  lemma EnumStoredUpperCased(name: string, values: seq<Expr>, session: Session, r: Responses)
    ensures var e := Execute(NewCreateEnum(name, values), session, r);
      && e.added == [TypeSymbol(ToUpper(name), EvaluateAll(values, session.eval))]
      && forall i :: 0 <= i < |e.added[0].name| ==> !IsLower(e.added[0].name[i])
  {
  }

  /** The IF NOT EXISTS flag only changes the outcome of status 2: an
      explicit false makes it a duplicate-database error, any other flag
      (true or absent) turns it into success. */
  lemma ExistsOnlyMattersOnDuplicate(name: string, replace: bool, flag: Option<bool>,
                                     flag': Option<bool>, r: Responses)
    ensures r.createStatus != 2 ==>
      ExecuteCreateDatabase(name, replace, flag, r) == ExecuteCreateDatabase(name, replace, flag', r)
    ensures r.createStatus == 2 && flag != Some(false) ==>
      && ExecuteCreateDatabase(name, replace, flag, r).outcome == Ok(Lines([DatabaseCreated(name)]))
      && ExecuteCreateDatabase(name, replace, flag, r).reloaded
    ensures r.createStatus == 2 ==>
      ExecuteCreateDatabase(name, replace, Some(false), r).outcome == Err(Error(0, 0, Runtime, DuplicateDatabase))
  {
  }

  /** OR REPLACE adds the leading drop call and changes nothing else. */
  lemma ReplaceOnlyAddsDrop(name: string, ifNotExists: Option<bool>, r: Responses)
    ensures var plain := ExecuteCreateDatabase(name, false, ifNotExists, r);
      ExecuteCreateDatabase(name, true, ifNotExists, r) == plain.(calls := [DropDatabaseCall(name)] + plain.calls)
  {
  }

  /** Neither the drop's status nor `alterAddPK`'s status is inspected: only
      the create call's status decides what a statement does. */
  lemma OnlyCreateStatusMatters(s: Statement, session: Session, r: Responses, r': Responses)
    requires r.createStatus == r'.createStatus
    ensures Execute(s, session, r) == Execute(s, session, r')
  {
  }

  /** The owner and mode of CREATE DATABASE are read but never used. */
  lemma OwnerAndModeUnused(name: string, owner: Option<string>, mode: Option<int>,
                           owner': Option<string>, mode': Option<int>,
                           replace: bool, ifNotExists: Option<bool>, session: Session, r: Responses)
    ensures Execute(CreateDatabase(name, owner, mode, replace, ifNotExists), session, r)
         == Execute(CreateDatabase(name, owner', mode', replace, ifNotExists), session, r)
  {
  }

  /** With distinct field objects, the key list a completed table passes to
      `alterAddPK` is the one the source's filter-then-`index` computation
      produces. */
  lemma AlterAddPKGetsSourceKeys(db: CurrentDb, name: string, fields: seq<FieldSymbol>)
    requires Distinct(fields)
    ensures var calls := TableCalls(db, name, fields);
      |calls| == 2 ==> calls[1] == AlterAddPKCall(db.name, name, KeysAsWritten(fields))
  {
    var calls := TableCalls(db, name, fields);
    if |calls| == 2 {
      PkOrdinalsUnique(fields, calls[1].keys);
      KeysAsWrittenArePositions(fields);
    }
  }

  /** With a parent table, `createTable` is told the own fields plus the
      parent's fields, and a successful statement completes the table with
      the own fields followed by the parent's. */
  lemma InheritedFieldsAppended(db: CurrentDb, name: string, parent: string,
                                own: seq<FieldSymbol>, check: Option<Expr>,
                                fieldsOf: string -> seq<FieldSymbol>, r: Responses)
    requires parent != ""
    ensures var e := ExecuteCreateTable(db, name, Some(parent), own, check, fieldsOf, r);
      && e.calls[0] == CreateTableCall(db.name, name, |own| + |fieldsOf(parent)|)
      && (e.outcome.Ok? ==>
            && e.calls == TableCalls(db, name, own + fieldsOf(parent))
            && e.added == TableSymbols(db, name, own + fieldsOf(parent), check))
  {
  }

  /** In a table whose fields are its own followed by a parent's, own field i
      keeps ordinal i and parent field j becomes ordinal |own| + j. */
  lemma InheritedFieldsFollowOwn(db: CurrentDb, name: string, own: seq<FieldSymbol>,
                              parent: seq<FieldSymbol>, check: Option<Expr>)
    ensures var added := TableSymbols(db, name, own + parent, check);
      && (forall i :: 0 <= i < |own| ==>
            added[1 + i].FieldEntry? && StampedAs(added[1 + i].field, own[i], name, i))
      && (forall j :: 0 <= j < |parent| ==>
            added[1 + |own| + j].FieldEntry?
            && StampedAs(added[1 + |own| + j].field, parent[j], name, |own| + j))
  {
  }

  /** CREATE TABLE orders (id INT PRIMARY KEY, total INT) in database `sales`:
      two field symbols with ordinals 0 and 1, and one key registration with
      the ordinal list [0]. */
  lemma OrdersExample(id: FieldSymbol, total: FieldSymbol, db: CurrentDb,
                      fieldsOf: string -> seq<FieldSymbol>)
    requires id.isPk && !total.isPk
    requires db.name == "sales"
    ensures var e := ExecuteCreateTable(db, "orders", None, [id, total], None, fieldsOf, Responses(0, 0, 0));
      && e.calls == [CreateTableCall("sales", "orders", 2), AlterAddPKCall("sales", "orders", [0])]
      && |e.added| == 3
      && e.added[1].field.fieldIndex == 0
      && e.added[2].field.fieldIndex == 1
  {
    var fields := [id, total];
    assert ResolveFields(fields, None, fieldsOf) == fields;
    var calls := TableCalls(db, "orders", fields);
    assert fields[0].isPk;
    PkOrdinalsUnique(fields, calls[1].keys);
    PkOrdinalsUnique(fields, [0]);
    assert calls == [CreateTableCall("sales", "orders", 2), AlterAddPKCall("sales", "orders", [0])];
  }
}
