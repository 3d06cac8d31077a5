/** The rows of the Prisma tables the core reads and writes, and the database
    itself as an object whose tables the services update in place. Timestamps
    are opaque strings; a soft delete is a `deletedAt` that is `Some`. */
module Store {
  import opened Wrappers

  datatype User = User(
    id: string,
    username: string,
    email: string,
    image: Option<string>,
    password: Option<string>)

  datatype Account = Account(
    userId: string,
    provider: string,
    providerAccountId: string,
    providerUserName: string,
    providerImage: string,
    deletedAt: Option<string>)

  datatype Service = Service(
    id: string,
    name: string,
    public: bool,
    microServicesUrl: seq<string>,
    hookSecret: string,
    deletedAt: Option<string>)

  /** A grant: the user may use the service. `(userId, serviceId)` is unique. */
  datatype UserServiceGrant = UserServiceGrant(
    userId: string,
    serviceId: string,
    deletedAt: Option<string>)

  datatype AuditRecord = AuditRecord(
    userId: string,
    action: string,
    ipAddress: string,
    userAgent: string,
    timestamp: string)

  /** The `requestBody` a hook log row stores: the delivered path logs the
      whole user, the failed path only its id. */
  datatype LoggedRequest =
    | DeliveredBody(user: User, service: string, ip: string, userAgent: string, timestamp: string)
    | FailedBody(userId: string, serviceName: string, ip: string, userAgent: string, timestamp: string)

  datatype HookLog = HookLog(
    serviceId: string,
    url: string,
    status: string,
    statusCode: int,
    requestBody: LoggedRequest,
    responseBody: Option<string>,
    errorMessage: Option<string>)

  /** The database. Each field is one table, in the order `findFirst` scans it. */
  class Database {
    var users: seq<User>
    var accounts: seq<Account>
    var services: seq<Service>
    var userServices: seq<UserServiceGrant>
    var auditLogs: seq<AuditRecord>
    var hookLogs: seq<HookLog>

    constructor ()
      ensures users == [] && accounts == [] && services == []
      ensures userServices == [] && auditLogs == [] && hookLogs == []
    {
      users, accounts, services := [], [], [];
      userServices, auditLogs, hookLogs := [], [], [];
    }
  }
}
