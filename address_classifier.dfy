/** The address classifier of the proxy (src/server.ts:130-166): whether a
    literal IPv4 or IPv6 address, or a host name, lies in space the proxy must
    not reach.  `net.isIP` is a library call and enters as an oracle of type
    `IsIP`; everything else is computed here. */
module AddressClassifier {
  import opened Wrappers
  import opened Text

  /** The answer of `net.isIP`: 0, 4 or 6. */
  datatype IpFamily = NotIp | V4 | V6

  /** `net.isIP`, an oracle the model does not re-implement. */
  type IsIP = string -> IpFamily

  // ---------------------------------------------------------------------
  // IPv4

  /** A dotted-quad address `a.b.c.d` as four parsed numbers.  The parse
      does not bound them: JavaScript's `Number` does not. */
  datatype IPv4 = IPv4(a: nat, b: nat, c: nat, d: nat)

  /** Private, loopback, link-local and "this network" IPv4 space, tested
      on the first two octets only, in the order of src/server.ts:134-139. */
  predicate IsPrivateIPv4(ip: IPv4) {
    if ip.a == 10 then true
    else if ip.a == 127 then true
    else if ip.a == 169 && ip.b == 254 then true
    else if ip.a == 172 && ip.b >= 16 && ip.b <= 31 then true
    else if ip.a == 192 && ip.b == 168 then true
    else if ip.a == 0 then true
    else false
  }

  /** The octet tests as one condition on the first two octets. */
  lemma PrivateIPv4Cases(ip: IPv4)
    ensures IsPrivateIPv4(ip) <==>
      || ip.a in {10, 127, 0}
      || (ip.a == 169 && ip.b == 254)
      || (ip.a == 172 && 16 <= ip.b <= 31)
      || (ip.a == 192 && ip.b == 168)
  {
  }

  /** The last two octets never matter. */
  lemma OnlyFirstTwoOctets(ip1: IPv4, ip2: IPv4)
    requires ip1.a == ip2.a && ip1.b == ip2.b
    ensures IsPrivateIPv4(ip1) == IsPrivateIPv4(ip2)
  {
  }

  predicate IsOctet(n: nat) {
    n <= 255
  }

  predicate WellFormed(ip: IPv4) {
    IsOctet(ip.a) && IsOctet(ip.b) && IsOctet(ip.c) && IsOctet(ip.d)
  }

  /** The 32-bit number an address stands for. */
  function AddressNumber(ip: IPv4): nat {
    ip.a * 0x100_0000 + ip.b * 0x1_0000 + ip.c * 0x100 + ip.d
  }

  /** A block of addresses, from its first to its last address. */
  datatype AddressBlock = AddressBlock(first: IPv4, last: IPv4)

  predicate InBlock(ip: IPv4, block: AddressBlock) {
    AddressNumber(block.first) <= AddressNumber(ip) <= AddressNumber(block.last)
  }

  /** The six blocks the source's comments name: 10.0.0.0/8, 127.0.0.0/8,
      169.254.0.0/16, 172.16.0.0/12, 192.168.0.0/16 and 0.0.0.0/8. */
  const PrivateBlocks: seq<AddressBlock> := [
    AddressBlock(IPv4(10, 0, 0, 0), IPv4(10, 255, 255, 255)),
    AddressBlock(IPv4(127, 0, 0, 0), IPv4(127, 255, 255, 255)),
    AddressBlock(IPv4(169, 254, 0, 0), IPv4(169, 254, 255, 255)),
    AddressBlock(IPv4(172, 16, 0, 0), IPv4(172, 31, 255, 255)),
    AddressBlock(IPv4(192, 168, 0, 0), IPv4(192, 168, 255, 255)),
    AddressBlock(IPv4(0, 0, 0, 0), IPv4(0, 255, 255, 255))
  ]

  predicate InPrivateBlock(ip: IPv4) {
    exists i :: 0 <= i < |PrivateBlocks| && InBlock(ip, PrivateBlocks[i])
  }

  /** For a well-formed address, the octet tests select exactly the
      addresses of the six blocks. */
  lemma PrivateIPv4MeansPrivateBlock(ip: IPv4)
    requires WellFormed(ip)
    ensures IsPrivateIPv4(ip) <==> InPrivateBlock(ip)
  {
    if IsPrivateIPv4(ip) {
      PrivateIsInBlock(ip);
    }
    if InPrivateBlock(ip) {
      var i :| 0 <= i < |PrivateBlocks| && InBlock(ip, PrivateBlocks[i]);
      BlockIsPrivate(ip, i);
    }
  }

  lemma BlockIsPrivate(ip: IPv4, i: nat)
    requires WellFormed(ip) && i < |PrivateBlocks| && InBlock(ip, PrivateBlocks[i])
    ensures IsPrivateIPv4(ip)
  {
    var block := PrivateBlocks[i];
    OctetRange(ip, block.first.a, block.first.b, block.last.b);
  }

  /** `BlockOctets` for a block written out from `a.lo.0.0` to `a.hi.255.255`. */
  lemma OctetRange(ip: IPv4, a: nat, lo: nat, hi: nat)
    requires WellFormed(ip) && a <= 255 && lo <= hi <= 255
    requires InBlock(ip, AddressBlock(IPv4(a, lo, 0, 0), IPv4(a, hi, 255, 255)))
    ensures ip.a == a && lo <= ip.b <= hi
  {
    BlockOctets(ip, AddressBlock(IPv4(a, lo, 0, 0), IPv4(a, hi, 255, 255)));
  }

  lemma PrivateIsInBlock(ip: IPv4)
    requires WellFormed(ip) && IsPrivateIPv4(ip)
    ensures InPrivateBlock(ip)
  {
    var low := ip.b * 0x1_0000 + ip.c * 0x100 + ip.d;
    assert low <= 0xFF_FFFF;
    var blocks := PrivateBlocks;
    if ip.a == 10 {
      assert InBlock(ip, blocks[0]);
    } else if ip.a == 127 {
      assert InBlock(ip, blocks[1]);
    } else if ip.a == 169 {
      assert InBlock(ip, blocks[2]);
    } else if ip.a == 172 {
      assert InBlock(ip, blocks[3]);
    } else if ip.a == 192 {
      assert InBlock(ip, blocks[4]);
    } else {
      assert InBlock(ip, blocks[5]);
    }
  }

  /** A block whose first and last address share their first octet holds
      exactly the addresses with that first octet and a second octet
      between the first and last address's. */
  lemma BlockOctets(ip: IPv4, block: AddressBlock)
    requires WellFormed(ip) && WellFormed(block.first) && WellFormed(block.last)
    requires block.first.a == block.last.a
    requires InBlock(ip, block)
    ensures ip.a == block.first.a && block.first.b <= ip.b <= block.last.b
  {
    var first, last := block.first, block.last;
    assert ip.a * 0x100_0000 <= AddressNumber(ip) < ip.a * 0x100_0000 + 0x100_0000;
    assert first.a * 0x100_0000 <= AddressNumber(first);
    assert AddressNumber(last) < last.a * 0x100_0000 + 0x100_0000;
    assert ip.a == first.a;
    var top := ip.a * 0x100_0000;
    assert top + ip.b * 0x1_0000 <= AddressNumber(ip) < top + ip.b * 0x1_0000 + 0x1_0000;
    assert top + first.b * 0x1_0000 <= AddressNumber(first);
    assert AddressNumber(last) < top + last.b * 0x1_0000 + 0x1_0000;
  }

  /** `Number(part)` on a piece of a split address.  On strings of decimal
      digits it is exact, the empty string included (`Number("")` is 0);
      any other string is taken as NaN, shown as `None`. */
  function JsNumber(part: string): (r: Option<nat>)
    ensures r.Some? <==> AllDigits(part)
  {
    if AllDigits(part) then Some(DigitsValue(part)) else None
  }

  /** `isPrivateIPv4` on its string argument (src/server.ts:130-141): split
      on dots, every piece through `Number`, exactly four pieces none of
      them NaN, then the octet test. */
  predicate IsPrivateIPv4Text(host: string) {
    var parts := Split(host, '.');
    if |parts| != 4 || exists i :: 0 <= i < 4 && JsNumber(parts[i]).None? then false
    else IsPrivateIPv4(IPv4(JsNumber(parts[0]).value, JsNumber(parts[1]).value,
                            JsNumber(parts[2]).value, JsNumber(parts[3]).value))
  }

  /** The guard of src/server.ts:132: anything but four pieces, or a piece
      that is not a number, is never private. */
  lemma MalformedIPv4IsNotPrivate(host: string)
    requires |Split(host, '.')| != 4
          || exists i :: 0 <= i < |Split(host, '.')| && !AllDigits(Split(host, '.')[i])
    ensures !IsPrivateIPv4Text(host)
  {
  }

  /** The canonical dotted-quad text of an address. */
  function DottedQuad(ip: IPv4): string {
    Decimal(ip.a) + "." + Decimal(ip.b) + "." + Decimal(ip.c) + "." + Decimal(ip.d)
  }

  /** Splitting the canonical text gives back the four decimal pieces. */
  lemma SplitDottedQuad(ip: IPv4)
    ensures Split(DottedQuad(ip), '.') == [Decimal(ip.a), Decimal(ip.b), Decimal(ip.c), Decimal(ip.d)]
  {
    NoDotInDecimal(ip.a);
    NoDotInDecimal(ip.b);
    NoDotInDecimal(ip.c);
    NoDotInDecimal(ip.d);
    SplitFourPieces(Decimal(ip.a), Decimal(ip.b), Decimal(ip.c), Decimal(ip.d));
  }

  /** Four dot-free pieces joined by dots split back into those pieces. */
  lemma SplitFourPieces(w: string, x: string, y: string, z: string)
    requires '.' !in w && '.' !in x && '.' !in y && '.' !in z
    ensures Split(w + "." + x + "." + y + "." + z, '.') == [w, x, y, z]
  {
    var yz := y + ['.'] + z;
    var xyz := x + ['.'] + yz;
    SplitWithoutSeparator(z, '.');
    SplitAfterPiece(y, '.', z);
    SplitAfterPiece(x, '.', yz);
    SplitAfterPiece(w, '.', xyz);
    JoinAssociates(w, x, y, z);
  }

  lemma JoinAssociates(w: string, x: string, y: string, z: string)
    ensures w + "." + x + "." + y + "." + z == w + ['.'] + (x + ['.'] + (y + ['.'] + z))
  {
    assert "." == ['.'];
    calc {
      w + "." + x + "." + y + "." + z;
      w + ['.'] + x + ['.'] + y + ['.'] + z;
      w + ['.'] + (x + ['.'] + y + ['.'] + z);
      { assert x + ['.'] + y + ['.'] + z == x + ['.'] + (y + ['.'] + z); }
      w + ['.'] + (x + ['.'] + (y + ['.'] + z));
    }
  }

  lemma NoDotInDecimal(n: nat)
    ensures '.' !in Decimal(n)
  {
    var s := Decimal(n);
    assert forall i :: 0 <= i < |s| ==> s[i] != '.';
  }

  /** The string test agrees with the octet test on the canonical text of
      every address: the text path loses nothing. */
  lemma DottedQuadRoundTrip(ip: IPv4)
    ensures IsPrivateIPv4Text(DottedQuad(ip)) == IsPrivateIPv4(ip)
  {
    SplitDottedQuad(ip);
    DecimalRoundTrip(ip.a);
    DecimalRoundTrip(ip.b);
    DecimalRoundTrip(ip.c);
    DecimalRoundTrip(ip.d);
  }

  /** The string test cannot be fooled by letter case: lower-casing the text
      does not change the answer. */
  lemma IPv4TextIgnoresCase(host: string)
    ensures IsPrivateIPv4Text(Lower(host)) == IsPrivateIPv4Text(host)
  {
    var parts := Split(host, '.');
    var lparts := Split(Lower(host), '.');
    SplitLower(host, '.');
    forall i | 0 <= i < |parts|
      ensures JsNumber(lparts[i]) == JsNumber(parts[i])
    {
      LowerKeepsDigits(parts[i]);
    }
  }

  // ---------------------------------------------------------------------
  // IPv6

  /** `isPrivateIPv6` (src/server.ts:143-148): loopback `::1`, or a text
      beginning `fc`, `fd` (unique local) or `fe80` (link local), after
      lower-casing. */
  predicate IsPrivateIPv6(host: string) {
    var h := Lower(host);
    h == "::1" || StartsWith(h, "fc") || StartsWith(h, "fd") || StartsWith(h, "fe80")
  }

  /** The IPv6 test depends on the address only up to letter case. */
  lemma IPv6IgnoresCase(h1: string, h2: string)
    requires Lower(h1) == Lower(h2)
    ensures IsPrivateIPv6(h1) == IsPrivateIPv6(h2)
  {
  }

  // ---------------------------------------------------------------------
  // Host names

  /** The reserved suffixes of src/server.ts:152-158. */
  const ReservedSuffixes: seq<string> :=
    [".localhost", ".local", ".lan", ".home", ".internal", ".intranet", ".localdomain"]

  /** `localhost` itself or a name under one of the reserved suffixes, after
      lower-casing. */
  predicate IsReservedName(hostname: string) {
    var h := Lower(hostname);
    h == "localhost" || exists i :: 0 <= i < |ReservedSuffixes| && EndsWith(h, ReservedSuffixes[i])
  }

  /** The reserved-name test, suffix by suffix. */
  lemma ReservedNameCases(hostname: string)
    ensures IsReservedName(hostname) <==>
      var h := Lower(hostname);
      || h == "localhost" || EndsWith(h, ".localhost") || EndsWith(h, ".local")
      || EndsWith(h, ".lan") || EndsWith(h, ".home") || EndsWith(h, ".internal")
      || EndsWith(h, ".intranet") || EndsWith(h, ".localdomain")
  {
    var h := Lower(hostname);
    if EndsWith(h, ".localhost") { assert EndsWith(h, ReservedSuffixes[0]); }
    if EndsWith(h, ".local") { assert EndsWith(h, ReservedSuffixes[1]); }
    if EndsWith(h, ".lan") { assert EndsWith(h, ReservedSuffixes[2]); }
    if EndsWith(h, ".home") { assert EndsWith(h, ReservedSuffixes[3]); }
    if EndsWith(h, ".internal") { assert EndsWith(h, ReservedSuffixes[4]); }
    if EndsWith(h, ".intranet") { assert EndsWith(h, ReservedSuffixes[5]); }
    if EndsWith(h, ".localdomain") { assert EndsWith(h, ReservedSuffixes[6]); }
  }

  /** No reserved name can end in any letter but `t`, `l`, `n` or `e`. */
  lemma NotReservedByLastChar(h: string)
    requires |h| > 0
    requires var c := LowerChar(h[|h| - 1]); c != 't' && c != 'l' && c != 'n' && c != 'e'
    ensures !IsReservedName(h)
  {
    var l := Lower(h);
    assert l[|l| - 1] == LowerChar(h[|h| - 1]);
    forall i | 0 <= i < |ReservedSuffixes|
      ensures !EndsWith(l, ReservedSuffixes[i])
    {
      var suffix := ReservedSuffixes[i];
      assert suffix[|suffix| - 1] in {'t', 'l', 'n', 'e'};
      assert |suffix| <= |l| ==> l[|l| - |suffix|..][|suffix| - 1] == l[|l| - 1];
    }
  }

  /** `isForbiddenHost` (src/server.ts:150-166): the name checks first, then
      the literal-address tests chosen by `net.isIP`. */
  function IsForbiddenHost(hostname: string, isIP: IsIP): (r: bool)
    ensures IsReservedName(hostname) ==> r
    ensures !IsReservedName(hostname) ==>
      (r <==> ((isIP(hostname) == V4 && IsPrivateIPv4Text(hostname))
            || (isIP(hostname) == V6 && IsPrivateIPv6(hostname))))
  {
    ReservedNameCases(hostname);
    var h := Lower(hostname);
    if h == "localhost" || EndsWith(h, ".localhost") then true
    else if EndsWith(h, ".local") || EndsWith(h, ".lan") || EndsWith(h, ".home") then true
    else if EndsWith(h, ".internal") || EndsWith(h, ".intranet") || EndsWith(h, ".localdomain") then true
    else
      match isIP(hostname)
      case V4 => IsPrivateIPv4Text(hostname)
      case V6 => IsPrivateIPv6(hostname)
      case NotIp => false
  }

  /** Reserved names are forbidden whatever `net.isIP` says of them, and a
      name that is neither reserved nor an address literal never is. */
  lemma ForbiddenHostNames(hostname: string, isIP1: IsIP, isIP2: IsIP)
    ensures IsReservedName(hostname) ==> IsForbiddenHost(hostname, isIP1) && IsForbiddenHost(hostname, isIP2)
    ensures !IsReservedName(hostname) && isIP1(hostname) == NotIp ==> !IsForbiddenHost(hostname, isIP1)
  {
  }

  /** `isForbiddenHost` is case-insensitive, provided `net.isIP` classifies
      the two spellings alike. */
  lemma ForbiddenHostIgnoresCase(h1: string, h2: string, isIP: IsIP)
    requires Lower(h1) == Lower(h2) && isIP(h1) == isIP(h2)
    ensures IsForbiddenHost(h1, isIP) == IsForbiddenHost(h2, isIP)
  {
    IPv4TextIgnoresCase(h1);
    IPv4TextIgnoresCase(h2);
  }
}
