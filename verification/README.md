# DDL executor of the team03 SQL parser, modelled in Dafny

This project models the executor for three DDL statements in
`parser/team03/parse/sql_ddl/create.py`: `CREATE TYPE ... AS ENUM`, `CREATE [OR REPLACE] DATABASE [IF NOT EXISTS]` and
`CREATE TABLE [... INHERITS (parent)]`. For each one it states what executing the statement does:

- which storage primitives it calls, and in what order. The primitives are `createDatabase`, `dropDatabase`,
  `createTable` and `alterAddPK` of the `jsonMode` backend.
- which symbols it adds to the symbol table, and in what order;
- whether it reloads the database symbols;
- which reply it returns or which classified error it raises.

The storage backend's answers are inputs: a `Storage.Responses` record of status codes. The calls it receives are
recorded as a sequence of `Storage.StorageCall`. The symbol table is the sequence of `Symbols.Symbol` a statement
adds.

Files:
- `errors.dfy`: module `Errors`. Error classes, positioned errors, the `Result` type, and the four runtime messages.
- `symbols.dfy`: module `Symbols`. Field, table and type symbols, and the current database.
- `storage.dfy`: module `Storage`. Storage calls and status-code inputs.
- `text.dfy`: module `Text`. `str.upper` on ASCII letters.
- `keys.dfy`: module `PrimaryKeys`. The primary-key ordinal list, both as positions and as the source's
  filter-then-`index` computation.
- `inheritance.dfy`: module `Inheritance`. The field list of an inheriting table, as written and as corrected.
- `create.dfy`: module `Create`. The statement nodes, the three executors, dispatch, and the lemmas that relate
  executions.

Choices the model makes about the code's behaviour:
- A `createDatabase` status other than 1, and other than 2 without IF NOT EXISTS, counts as success. This includes
  statuses outside 0..2.
- A `createTable` status other than 1, 2 and 3 counts as success.
- IF NOT EXISTS exists only for databases. A duplicate table always fails.
- The IF NOT EXISTS flag is an optional boolean. Status 2 is a duplicate only when the flag is explicitly false, because the code tests `exists == False`, and an absent flag (`None`) does not compare equal to False.
- The one place where the model departs from the code is the field list of an inheriting table. The model uses the corrected list: own fields followed by the parent's fields. The code as written is recorded under "## Findings".
- The error for a missing database is kept exactly as written: `42P04: database_does_not_exists`. It reuses the
  SQLSTATE code of `duplicate_database`.

## Model

| member | source | states |
|---|---|---|
| `Create.ExecuteCreateDatabase` | parser/team03/parse/sql_ddl/create.py:35-61 | Status 1 gives RUNTIME `5800: system_error` at position (0, 0), whatever the IF NOT EXISTS flag is. Status 2 with the flag explicitly false gives RUNTIME `42P04: duplicate_database`. Every other case reloads the databases and replies with the single line `Database '<name>' was created successfully!`. Databases are reloaded exactly on success, and no symbol is added directly. The create call comes last. With OR REPLACE it is preceded by exactly one drop of the same name. |
| `Create.ExistsOnlyMattersOnDuplicate` | parser/team03/parse/sql_ddl/create.py:54-61 | The IF NOT EXISTS flag changes nothing unless the status is 2. At status 2, an explicit false gives the duplicate error, and any other flag value (true or absent) gives success with a reload. |
| `Create.ReplaceOnlyAddsDrop` | parser/team03/parse/sql_ddl/create.py:44-48 | OR REPLACE only prepends `dropDatabase(name)` to the calls. Outcome, reload and symbols are identical, because the drop's result is never inspected. |
| `Create.OwnerAndModeUnused` | parser/team03/parse/sql_ddl/create.py:41-42 | The owner and mode of CREATE DATABASE do not affect its execution. |
| `Create.OnlyCreateStatusMatters` | parser/team03/parse/sql_ddl/create.py:103-105 | For every statement, the status answered to the drop and to `alterAddPK` never changes the execution. Only the create call's status does. |
| `Create.ExecuteCreateTable` | parser/team03/parse/sql_ddl/create.py:83-116 | `createTable` is called first, with the current database's name, the table name and the field count. Statuses 1, 2 and 3 give `5800: system_error`, `42P04: database_does_not_exists` and `42P07: duplicate_table` at (0, 0). In those cases that call is the only one, and no symbol is added. Every other status replies `Table: <name> created.` and issues the key calls of `TableCalls` and the symbols of `TableSymbols`. For an inheriting table, the field list is the corrected one from "## Findings". |
| `Create.TableCalls` | parser/team03/parse/sql_ddl/create.py:96-103 | After `createTable` there is at most one more call. There is one exactly when some field is a primary key. It is `alterAddPK` on the same database and table, and its key list is ascending and holds exactly the positions of the primary-key fields. |
| `Create.TableSymbols` | parser/team03/parse/sql_ddl/create.py:105-115 | A completed table adds one `TableSymbol(db id, name, check)` first. Then it adds one field symbol per field. Field k carries ordinal k, the table name and the FIELD kind, and keeps every other attribute of its definition. |
| `Create.StampFrom` | parser/team03/parse/sql_ddl/create.py:109-115 | Numbering fields in list order from a start ordinal gives contiguous ordinals start, start+1, and so on. Each field is stamped with the table name and the FIELD kind, and is otherwise unchanged. |
| `Create.AlterAddPKGetsSourceKeys` | parser/team03/parse/sql_ddl/create.py:96-103 | For distinct field objects, a completed table that registers a primary key passes `alterAddPK` exactly the list the source computes as `map(index, filter(is_pk))`. |
| `Create.InheritedFieldsAppended` | parser/team03/parse/sql_ddl/create.py:76-83 | Corrected behaviour, not the code as written. With a non-empty parent name, `createTable` is told the number of own fields plus parent fields. A successful statement completes the table with the own fields followed by the parent's fields. |
| `Create.InheritedFieldsFollowOwn` | parser/team03/parse/sql_ddl/create.py:105-115 | In a table made of its own fields followed by a parent's fields, own field i keeps ordinal i. Parent field j gets ordinal \|own\|+j, and every field is stamped with the table name. |
| `Create.OrdersExample` | parser/team03/parse/sql_ddl/create.py:83-115 | `CREATE TABLE orders (id PK, total)` in `sales` issues `createTable(sales, orders, 2)` and then `alterAddPK(sales, orders, [0])`. It adds field symbols with ordinals 0 and 1. |
| `Create.ExecuteCreateEnum` | parser/team03/parse/sql_ddl/create.py:14-22 | An enum issues no storage call and adds exactly one type symbol. That symbol has the node's name and value i equal to the evaluation of expression i, for every i. The reply is `[AST] ENUM <name> created.`. |
| `Create.EvaluateAll` | parser/team03/parse/sql_ddl/create.py:16-18 | The value list holds, position by position, the evaluation of each value expression, in list order. |
| `Create.EnumStoredUpperCased` | parser/team03/parse/sql_ddl/create.py:10-20 | An enum built from any name stores its type under `ToUpper(name)`. That name contains no lower-case letter. |
| `Create.Execute` | parser/team03/parse/sql_ddl/create.py:10-93 | Whatever the statement, a failed execution adds no symbol and reloads nothing. Only CREATE DATABASE reloads. An enum never reaches storage and stores one type symbol whose name has no lower-case letter. Only CREATE TABLE adds a table symbol, always as its first symbol. |
| `Text.ToUpper` | parser/team03/parse/sql_ddl/create.py:10 | Upper-casing keeps the length and leaves no lower-case letter. Each character agrees with the original when case is ignored, and every non-lower-case character is kept. |
| `Text.ToUpperIdempotent` | parser/team03/parse/sql_ddl/create.py:10 | Upper-casing twice is the same as upper-casing once. |
| `Text.ToUpperIgnoresCase` | parser/team03/parse/sql_ddl/create.py:10 | Names that differ only in letter case upper-case to the same stored name. |
| `Text.SameUpperMeansSameIgnoringCase` | parser/team03/parse/sql_ddl/create.py:10 | Names with the same upper-cased form differ only in letter case. |
| `PrimaryKeys.PkOrdinals` | parser/team03/parse/sql_ddl/create.py:96-101 | The key list is strictly ascending. It holds only positions of primary-key fields, and every primary-key field's position. |
| `PrimaryKeys.PkOrdinalsUnique` | parser/team03/parse/sql_ddl/create.py:96-101 | Any ascending list holding exactly the primary-key positions is the computed key list. |
| `PrimaryKeys.NoKeysIffNoPkField` | parser/team03/parse/sql_ddl/create.py:102-103 | The key list is empty exactly when no field is a primary key. |
| `PrimaryKeys.IndexOf` | parser/team03/parse/sql_ddl/create.py:98 | `list.index` returns the first position holding the element. |
| `PrimaryKeys.PkFields` | parser/team03/parse/sql_ddl/create.py:99 | The filter keeps exactly the fields whose primary-key flag is set, in field order, once each. The j-th kept field is the field at the j-th primary-key ordinal. |
| `PrimaryKeys.KeysAsWrittenArePositions` | parser/team03/parse/sql_ddl/create.py:96-101 | When the fields are distinct, the filter-then-`index` list equals the ascending primary-key positions. |
| `Inheritance.ResolveFields` | parser/team03/parse/sql_ddl/create.py:76-80 | Corrected behaviour, not the code as written. Without a non-empty parent name, the fields are the table's own. With one, they are the own fields followed by the parent's fields, and the count is the sum. |
| `Inheritance.FieldListAsWritten` | parser/team03/parse/sql_ddl/create.py:77-80 | As written, the list holds one element per own field, plus one element for the whole parent list. |
| `Inheritance.AsWrittenMiscountsInheritedFields` | parser/team03/parse/sql_ddl/create.py:78-83 | As written, the parent list becomes a single nested element. So the count given to `createTable` is wrong for any parent without exactly one field. |

## Findings

| source | as written | input that shows it | evidently intended | confidence | as-written member | corrected member |
|---|---|---|---|---|---|---|
| parser/team03/parse/sql_ddl/create.py:80 | `result_fields.append(parent_fields)` adds the parent's field list as one element | `CREATE TABLE child (id INT) INHERITS (parent)` where `parent` has two fields. `createTable` is told 2 fields instead of 3. The primary-key filter then reads `is_pk` of a list. | extend the list with the parent's fields, so own fields come first and then the inherited ones | high; not executed | `Inheritance.AsWrittenMiscountsInheritedFields` | `Inheritance.ResolveFields` |

The executor uses the corrected field list. `Inheritance.FieldListAsWritten` and `Inheritance.AsWrittenCountExample`
record the behaviour as written.

## Left out

- Storage backend (`jsonMode`): `createDatabase`, `createTable`, `dropDatabase` and `alterAddPK` are foreign code. Their status codes are inputs and their calls are recorded; their effect on disk is not modelled.
- `SymbolTable` internals (`add`, `get_current_db`, `get_fields_from_table`, `LoadDataBases`) are not part of this model:
  - the table is the sequence of symbols a statement adds;
  - the current database is a given `CurrentDb`, so a missing database selection is not modelled;
  - the parent's fields are given by a function;
  - reloading is a flag.
- Uniqueness checks inside `SymbolTable.add` are not modelled, for the same reason.
- Evaluation of sub-expressions (`ASTNode.execute`): the enum's value expressions are evaluated by a given total function. The database name, parent name and table name arrive already evaluated.
- `TableField.execute` is left out. The field symbols a table receives are the parser's drafts, whatever table name, ordinal and kind they carry beforehand.
- In-place mutation and aliasing of `self.fields` are left out. Stamping produces new field values.
- `print`, `graph_ref`, the base `ASTNode.execute` call and the unreachable `return False` lines are left out. They have no observable effect on the outcome.
- `PrimaryKeys.KeysAsWrittenArePositions` assumes distinct fields. `list.index` compares with `==`, and field objects are distinct only if `FieldSymbol` defines no `__eq__`. That class is not part of this model. If it compared attributes, two identical primary-key columns (`a INT PK, a INT PK`) would give the source the key list `[0, 0]`, while the model gives `[0, 1]`.
- `Text.ToUpper`: only ASCII letters are upper-cased. Python's full Unicode `str.upper`, which can change the length of a string, is not modelled.
- The check expression of a table is stored unevaluated, as in the source.
- `Create.ExecuteCreateTable`: for an inheriting table, the model uses the corrected field list, own fields followed by the parent's. Two behaviours of the code as written are therefore not modelled. The first is the AttributeError that the key filter at line 99 raises on the appended list, after the table already exists in storage. The second is the semantic error for a missing parent that the comment at line 79 announces: `fieldsOf` is total and gives every name a field list.
- `FieldSymbol` is built with ten arguments (create.py:133-144). The last two are always `None` and their meaning is not visible, so the model's field symbol drops them. "Keeps every other attribute" in `Create.TableSymbols` and `Create.StampFrom` refers to the nine modelled attributes.
- `Create.Execute`: an enum node's name is upper-cased when the node is built (`Create.NewCreateEnum`), and execution upper-cases it again. For a built node this changes nothing (`Text.ToUpperIdempotent`), and it keeps an enum name with lower-case letters out of the symbols.
