/** The SSRF guard (`resolvesToPrivateAddress`, src/server.ts:331-345): an
    address literal is judged by the classifier alone; a domain name is
    looked up and refused when any address it resolves to is private.  The
    lookup (`dns.lookup(hostname, { all: true })`) is an oracle. */
module SsrfGuard {
  import opened AddressClassifier

  /** One answer of the resolver: its address family and its address. */
  datatype DnsRecord = DnsRecord(family: int, address: string)

  /** What `dns.lookup` gives: a failure (the promise rejects), or the
      records it resolved, in order. */
  datatype LookupResult = LookupFailed | Resolved(records: seq<DnsRecord>)

  /** `dns.lookup`, an oracle the model does not re-implement. */
  type Lookup = string -> LookupResult

  /** src/server.ts:338-339: a record is private for its own family; a
      record of another family never is. */
  predicate IsPrivateRecord(rec: DnsRecord) {
    (rec.family == 4 && IsPrivateIPv4Text(rec.address))
    || (rec.family == 6 && IsPrivateIPv6(rec.address))
  }

  /** What the guard answers: for a literal, the private-range test of its
      family; for a name, whether some resolved record is private; false
      when the lookup fails. */
  predicate ResolvesToPrivate(hostname: string, isIP: IsIP, lookup: Lookup) {
    match isIP(hostname)
    case V4 => IsPrivateIPv4Text(hostname)
    case V6 => IsPrivateIPv6(hostname)
    case NotIp =>
      match lookup(hostname)
      case LookupFailed => false
      case Resolved(records) => exists i :: 0 <= i < |records| && IsPrivateRecord(records[i])
  }

  /** `resolvesToPrivateAddress`: the walk over the records stops at the
      first private one. */
  method ResolvesToPrivateAddress(hostname: string, isIP: IsIP, lookup: Lookup) returns (r: bool)
    ensures r == ResolvesToPrivate(hostname, isIP, lookup)
  {
    var ipType := isIP(hostname);
    if ipType == V4 {
      return IsPrivateIPv4Text(hostname);
    }
    if ipType == V6 {
      return IsPrivateIPv6(hostname);
    }
    var answer := lookup(hostname);
    if answer.LookupFailed? {
      // the error is swallowed: the connection attempt decides
      return false;
    }
    var records := answer.records;
    for i := 0 to |records|
      invariant forall j :: 0 <= j < i ==> !IsPrivateRecord(records[j])
    {
      var rec := records[i];
      if rec.family == 4 && IsPrivateIPv4Text(rec.address) {
        return true;
      }
      if rec.family == 6 && IsPrivateIPv6(rec.address) {
        return true;
      }
    }
    return false;
  }

  /** A literal is judged without the lookup: any two resolvers give the
      same answer for it. */
  lemma LiteralNeedsNoLookup(hostname: string, isIP: IsIP, lookup1: Lookup, lookup2: Lookup)
    requires isIP(hostname) != NotIp
    ensures ResolvesToPrivate(hostname, isIP, lookup1) == ResolvesToPrivate(hostname, isIP, lookup2)
    ensures ResolvesToPrivate(hostname, isIP, lookup1) ==
      (if isIP(hostname) == V4 then IsPrivateIPv4Text(hostname) else IsPrivateIPv6(hostname))
  {
  }

  /** Fail-open: a name whose lookup fails is not reported private. */
  lemma LookupFailureFailsOpen(hostname: string, isIP: IsIP, lookup: Lookup)
    requires isIP(hostname) == NotIp && lookup(hostname) == LookupFailed
    ensures !ResolvesToPrivate(hostname, isIP, lookup)
  {
  }

  /** For a name, one private record among the answers is enough, wherever
      it stands. */
  lemma OnePrivateRecordSuffices(hostname: string, isIP: IsIP, lookup: Lookup, k: nat)
    requires isIP(hostname) == NotIp && lookup(hostname).Resolved?
    requires k < |lookup(hostname).records| && IsPrivateRecord(lookup(hostname).records[k])
    ensures ResolvesToPrivate(hostname, isIP, lookup)
  {
  }
}
