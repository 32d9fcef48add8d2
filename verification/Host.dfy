/** Cluster members and their `host:port` addresses. */
module Host {
  import opened Common
  import opened Decimal

  type Port = p: nat | p < 65536

  datatype HostEntity = HostEntity(host: string, port: Port)

  function Address(h: HostEntity): string {
    h.host + ":" + Digits(h.port)
  }

  /** The position of the last colon, or None. */
  function LastColon(s: string): (r: Option<nat>)
    ensures r.Some? ==> r.value < |s| && s[r.value] == ':' && ':' !in s[r.value + 1..]
    ensures r.None? ==> ':' !in s
  {
    if s == "" then None
    else if s[|s| - 1] == ':' then Some(|s| - 1)
    else
      match LastColon(s[..|s| - 1])
      case None => None
      case Some(i) =>
        assert s[i + 1..] == s[..|s| - 1][i + 1..] + [s[|s| - 1]];
        Some(i)
  }

  /** Splits at the last colon and parses what follows as a port. */
  function FromAddress(addr: string): Option<HostEntity> {
    match LastColon(addr)
    case None => None
    case Some(i) =>
      match ParseUnsigned(addr[i + 1..], 65535)
      case None => None
      case Some(port) => Some(HostEntity(addr[..i], port))
  }

  lemma {:induction false} LastColonIs(host: string, port: string)
    requires ':' !in port
    ensures LastColon(host + ":" + port) == Some(|host|)
  {
    var s := host + ":" + port;
    if port != "" {
      var front := port[..|port| - 1];
      assert s[|s| - 1] in port;
      assert s[..|s| - 1] == host + ":" + front;
      LastColonIs(host, front);
    }
  }

  /** Exactly the addresses that are read: a host, the last colon, and a port that parses and fits 16 bits. */
  lemma AddressIsRead(host: string, port: string)
    requires ':' !in port
    ensures FromAddress(host + ":" + port) ==
            (match ParseUnsigned(port, 65535)
             case Some(p) => Some(HostEntity(host, p))
             case None => None)
    ensures FromAddress(port) == None
  {
    LastColonIs(host, port);
    var s := host + ":" + port;
    assert s[|host| + 1..] == port && s[..|host|] == host;
  }

  /** Every entity is read back from its address, whatever colons its host name holds. */
  lemma AddressRoundTrip(h: HostEntity)
    ensures FromAddress(Address(h)) == Some(h)
  {
    var port := Digits(h.port);
    assert ':' !in port by { assert !IsDigit(':'); }
    LastColonIs(h.host, port);
    ParseOfDigits(h.port, 65535);
    var s := Address(h);
    assert s[|h.host| + 1..] == port && s[..|h.host|] == h.host;
  }

  /** Grouping by address is grouping by member. */
  lemma AddressIsInjective(g: HostEntity, h: HostEntity)
    ensures Address(g) == Address(h) <==> g == h
  {
    AddressRoundTrip(g);
    AddressRoundTrip(h);
  }

  /** A parsed address is printed as it was exactly when its port was written the canonical way. */
  lemma AddressOfParsed(addr: string)
    requires FromAddress(addr).Some?
    ensures Address(FromAddress(addr).value) == addr <==> IsCanonical(addr[LastColon(addr).value + 1..])
  {
    var i := LastColon(addr).value;
    var port := addr[i + 1..];
    var h := FromAddress(addr).value;
    assert addr == addr[..i] + ":" + port;
    if IsCanonical(port) {
      DigitsOfValue(port);
    }
    if Address(h) == addr {
      assert addr[|h.host| + 1..] == Digits(h.port);
      DigitsAreCanonical(h.port);
    }
  }

  lemma DigitsAreCanonical(n: nat)
    ensures IsCanonical(Digits(n))
  {
  }
}
