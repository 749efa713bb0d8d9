/** The entities of the server and the integer widths it computes with. */
module Domain {

  datatype Option<+T> = None | Some(value: T)

  /** A point in time, in nanoseconds. */
  type Time = int

  const SECOND: int := 1_000_000_000

  const TWO_32: int := 0x1_0000_0000
  const TWO_64: int := 0x1_0000_0000_0000_0000
  const INT32_MAX: int := 0x7FFF_FFFF
  const INT64_MAX: int := 0x7FFF_FFFF_FFFF_FFFF

  type uint32 = x: int | 0 <= x < TWO_32

  /** The value an int64 variable holds after being assigned the mathematical integer `x`. */
  function Wrap64(x: int): int {
    (x + INT64_MAX + 1) % TWO_64 - INT64_MAX - 1
  }

  /** The two quantities a voucher is metered in. */
  datatype Dim = Seconds | Octets

  datatype Usage = Usage(seconds: int, octets: int) {
    function Of(d: Dim): int {
      match d
      case Seconds => seconds
      case Octets => octets
    }
  }

  /** The largest value the usage column of `radius_users` holds: INTEGER and BIGINT. */
  function ColumnMax(d: Dim): int {
    match d
    case Seconds => INT32_MAX
    case Octets => INT64_MAX
  }

  datatype LimitType = UsageLimit | CalendarLimit | OtherLimit

  /** The columns of a subscriber that only an administrator changes. */
  datatype Plan = Plan(
    passwordHash: string,
    isVoucher: bool,
    limitType: LimitType,
    limitSeconds: int,
    dataCap: int,
    simultaneousUse: int,
    sessionTimeout: int,
    profileId: Option<string>,
    packageId: Option<string>)

  datatype Profile = Profile(id: string, enabled: bool, sessionTimeout: int)

  datatype Package = Package(
    id: string,
    name: string,
    enabled: bool,
    upKbps: int,
    downKbps: int,
    dataCap: int,
    limitType: LimitType,
    limitSeconds: int,
    maxConcurrentUsers: int)

  datatype User = User(
    id: string,
    username: string,
    plan: Plan,
    enabled: bool,
    usage: Usage,
    firstLogin: Option<Time>,
    expires: Option<Time>,
    profile: Option<Profile>,
    package: Option<Package>)

  datatype Nas = Nas(ip: string, secret: string, enabled: bool)

  datatype Status = Active | Stopped | Stale

  datatype Session = Session(
    id: string,
    sessionId: string,
    username: string,
    nasIp: string,
    inOctets: int,
    outOctets: int,
    time: int,
    status: Status,
    startTime: Time,
    lastUpdate: Time,
    stopTime: Option<Time>)

  /** A database statement issued by a goroutine nobody waits for. */
  datatype Write =
    | AddUsage(userId: string, delta: Usage)
    | FirstLogin(userId: string, limitType: LimitType, limitSeconds: int)
    | Disable(userId: string)
    | Upsert(session: Session)

  /** What one server process keeps in memory, guarded by its mutex. */
  datatype Mem = Mem(
    subscribers: map<string, User>,
    sessions: map<string, Session>,
    nases: map<string, Nas>)

  function Get<K, V>(m: map<K, V>, k: K): Option<V> {
    if k in m then Some(m[k]) else None
  }
}
