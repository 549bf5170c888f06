/** Hop-by-hop header stripping (src/server.ts:76-94): before a plain
    request is sent on, the `proxyReq` handler removes, one by one, the nine
    headers that belong to a single connection.  The outbound request is
    Node's `ClientRequest`, whose headers live in a table keyed by the
    lower-cased header name. */
module HopByHop {
  import opened Text

  /** `HOP_BY_HOP_HEADERS`, in the source's order. */
  const HopByHopHeaders: seq<string> := [
    "connection", "keep-alive", "proxy-authenticate", "proxy-authorization",
    "te", "trailer", "transfer-encoding", "upgrade", "forwarded"
  ]

  /** A header as set on the outbound request: the name as it was written,
      and its value or values. */
  datatype HeaderEntry = HeaderEntry(name: string, values: seq<string>)

  type HeaderTable = map<string, HeaderEntry>

  /** Every entry is filed under its own name, lower-cased. */
  predicate WellKeyed(headers: HeaderTable) {
    forall k :: k in headers ==> k == Lower(headers[k].name)
  }

  /** The names removed by the first `n` rounds of the loop. */
  function RemovedBy(n: nat): set<string>
    requires n <= |HopByHopHeaders|
  {
    set h | h in HopByHopHeaders[..n]
  }

  /** The outbound headers once all nine are removed. */
  function WithoutHopByHop(headers: HeaderTable): HeaderTable {
    headers - RemovedBy(|HopByHopHeaders|)
  }

  /** After stripping, no header of any spelling with a hop-by-hop name is
      left, and the table stays well keyed. */
  lemma NoHopByHopHeaderRemains(headers: HeaderTable)
    requires WellKeyed(headers)
    ensures WellKeyed(WithoutHopByHop(headers))
    ensures forall k :: k in WithoutHopByHop(headers) ==> Lower(WithoutHopByHop(headers)[k].name) !in HopByHopHeaders
  {
    assert HopByHopHeaders[..|HopByHopHeaders|] == HopByHopHeaders;
  }

  /** Every other header is kept, under the same key, with the same name
      and values; nothing is added. */
  lemma OtherHeadersUnchanged(headers: HeaderTable)
    ensures forall k :: k in headers && k !in HopByHopHeaders ==>
      k in WithoutHopByHop(headers) && WithoutHopByHop(headers)[k] == headers[k]
    ensures forall k :: k in WithoutHopByHop(headers) ==> k in headers && k !in HopByHopHeaders
  {
    assert HopByHopHeaders[..|HopByHopHeaders|] == HopByHopHeaders;
  }

  /** The outbound request the forwarding engine is about to send. */
  class ProxyRequest {
    var headers: HeaderTable
    /** Whether the header block has gone out; `removeHeader` then throws. */
    var headersSent: bool
    /** `_removedConnection`, `_removedContLen`, `_removedTE`: set when that
        name is removed, whether or not the header was present; the header
        writer reads them when it frames the body and decides keep-alive. */
    var removedConnection: bool
    var removedContLen: bool
    var removedTE: bool

    ghost predicate Valid()
      reads this
    {
      WellKeyed(headers)
    }

    constructor (initial: HeaderTable, sent: bool)
      requires WellKeyed(initial)
      ensures Valid() && headers == initial && headersSent == sent
      ensures !removedConnection && !removedContLen && !removedTE
    {
      headers := initial;
      headersSent := sent;
      removedConnection, removedContLen, removedTE := false, false, false;
    }

    /** `removeHeader(name)`: drops the entry filed under the lower-cased
        name and, for `connection`, `content-length` and `transfer-encoding`,
        records the removal; once the headers are sent it throws instead,
        reported here as `thrown`, and changes nothing.  (Its `date` case
        clears `sendDate`, which a client request has off already.) */
    method RemoveHeader(name: string) returns (thrown: bool)
      requires Valid()
      modifies this
      ensures Valid() && headersSent == old(headersSent)
      ensures thrown == old(headersSent)
      ensures headers == if thrown then old(headers) else old(headers) - {Lower(name)}
      ensures removedConnection == (old(removedConnection) || (!thrown && Lower(name) == "connection"))
      ensures removedContLen == (old(removedContLen) || (!thrown && Lower(name) == "content-length"))
      ensures removedTE == (old(removedTE) || (!thrown && Lower(name) == "transfer-encoding"))
    {
      if headersSent {
        return true;
      }
      var key := Lower(name);
      if key == "connection" {
        removedConnection := true;
      } else if key == "content-length" {
        removedContLen := true;
      } else if key == "transfer-encoding" {
        removedTE := true;
      }
      headers := headers - {key};
      return false;
    }

    /** The `proxyReq` handler: a loop over the nine names, each removal in
        its own `try` whose error is swallowed.  Before the headers go out it
        leaves the `connection` and `transfer-encoding` removals recorded,
        whether the inbound request carried those headers or not. */
    method StripHopByHop()
      requires Valid()
      modifies this
      ensures Valid() && headersSent == old(headersSent)
      ensures headers == if old(headersSent) then old(headers) else WithoutHopByHop(old(headers))
      ensures removedConnection == (old(removedConnection) || !old(headersSent))
      ensures removedTE == (old(removedTE) || !old(headersSent))
      ensures removedContLen == old(removedContLen)
    {
      for i := 0 to |HopByHopHeaders|
        invariant Valid() && headersSent == old(headersSent)
        invariant headers == if old(headersSent) then old(headers) else old(headers) - RemovedBy(i)
        invariant removedConnection == (old(removedConnection) || (!old(headersSent) && 0 < i))
        invariant removedTE == (old(removedTE) || (!old(headersSent) && 6 < i))
        invariant removedContLen == old(removedContLen)
      {
        var h := HopByHopHeaders[i];
        LowerOfLowerCase(h);
        FramingNameAt(i);
        var _ := RemoveHeader(h);
        assert HopByHopHeaders[..i + 1] == HopByHopHeaders[..i] + [h];
        assert RemovedBy(i + 1) == RemovedBy(i) + {h};
      }
      assert HopByHopHeaders[..|HopByHopHeaders|] == HopByHopHeaders;
    }
  }

  /** Where the names the header writer tracks sit among the nine:
      `connection` first, `transfer-encoding` seventh, `content-length`
      nowhere. */
  lemma FramingNameAt(i: nat)
    requires i < |HopByHopHeaders|
    ensures (HopByHopHeaders[i] == "connection") == (i == 0)
    ensures (HopByHopHeaders[i] == "transfer-encoding") == (i == 6)
    ensures HopByHopHeaders[i] != "content-length"
  {
  }
}
