/** DNS zones and their resource records. */
module Zones {
  import opened Text

  datatype Record = Record(name: string, rtype: string, ttl: int, value: string)

  datatype Zone = Zone(name: string, kind: string, network: string, primaryNS: string, admin: string, serial: int,
                       ttl: int, records: seq<Record>)

  /** Two records of one owner and type. */
  predicate SameKey(a: Record, b: Record) {
    a.name == b.name && a.rtype == b.rtype
  }

  function RecordTypes(): set<string> {
    {"A", "AAAA", "CNAME", "TXT", "NS", "MX", "PTR", "SRV"}
  }
}
