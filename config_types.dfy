/** The process and server configuration records of types/types.go. */
module Config {
  /** One running (or configured) server process. */
  datatype ProcessInfo = ProcessInfo(
    id: string,
    pid: int,
    serverUrl: string,
    serverPort: string,
    dashboardPort: string,
    dashboardUrl: string,
    dashboardUp: bool,
    dbName: string,
    logPath: string,
    databasePath: string)

  /** The settings a server keeps for its database. */
  datatype ServerConfig = ServerConfig(
    databaseName: string,
    organization: string,
    phone: string,
    process: ProcessInfo)
}
