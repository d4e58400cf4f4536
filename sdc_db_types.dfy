/**
 * The table path of the SONiC data client's db_client.go revision
 * (sonic_data_client/db_client.go), shared with its virtual-path
 * translators (sonic_data_client/virtual_db.go).
 */
module SdcDbTypes {
  /**
   * A DB location a gNMI path stands for: a table, optionally a key and a
   * single field, and the names to use for them in the JSON reply.
   */
  datatype DbTablePath = DbTablePath(dbName: string, tableName: string, tableKey: string, delimitor: string,
                                     field: string, jsonTableName: string, jsonTableKey: string,
                                     jsonDelimitor: string, jsonField: string)

  /** The table path of a bare table, with every other part empty. */
  function TableOnly(dbName: string, tableName: string, delimitor: string): (tp: DbTablePath)
    ensures tp.dbName == dbName && tp.tableName == tableName && tp.delimitor == delimitor
    ensures tp.tableKey == "" && tp.field == "" && tp.jsonTableKey == "" && tp.jsonField == ""
  {
    DbTablePath(dbName, tableName, "", delimitor, "", "", "", "", "")
  }
}
