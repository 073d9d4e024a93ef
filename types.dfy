/** Shared data model of the dashboard (types.ts). */
module Types {

  /** A value that may be absent: `null`/`undefined` or an optional field. */
  datatype Option<+T> = None | Some(value: T)

  /** The four record kinds a local DNS entry may have. */
  datatype RecordType = A | AAAA | CNAME | PTR

  /** A local DNS entry; `comment` is optional. */
  datatype DnsRecord = DnsRecord(
    id: string,
    domain: string,
    ip: string,
    recordType: RecordType,
    comment: Option<string>)

  /** How the forwarder answered one query. */
  datatype Status = Forwarded | Blocked | Cached | Local

  /** One observed DNS query; `queryType` is free text (A, AAAA, CNAME, HTTPS, ...). */
  datatype QueryLog = QueryLog(
    timestamp: string,
    client: string,
    domain: string,
    queryType: string,
    status: Status,
    replyTime: Option<string>)

  /** The string a status has at run time (its literal in the union type). */
  function StatusName(s: Status): (name: string)
    ensures name in {"Forwarded", "Blocked", "Cached", "Local"}
  {
    match s
    case Forwarded => "Forwarded"
    case Blocked => "Blocked"
    case Cached => "Cached"
    case Local => "Local"
  }
}
