/** The storage primitives the executor calls (the `jsonMode` module). Their
    behaviour is not modelled: a statement records the calls it issues, and
    the status codes they answer are inputs. */
module Storage {

  datatype StorageCall =
    | DropDatabaseCall(dbName: string)
    | CreateDatabaseCall(dbName: string)
    | CreateTableCall(dbName: string, table: string, fieldCount: int)
    | AlterAddPKCall(dbName: string, table: string, keys: seq<nat>)

  /** The status codes storage answers for one statement: the drop issued by
      CREATE OR REPLACE DATABASE, the create call, and `alterAddPK`. */
  datatype Responses = Responses(dropStatus: int, createStatus: int, alterStatus: int)
}
