/** The SOCKS5 UDP header of section 7 of RFC 1928, as the relay and the egress server write and
    read it. */
module Socks5Udp {
  import opened Text

  type Byte = b: int | 0 <= b < 256

  type Port = p: int | 0 <= p < 65536

  /** Four bytes for IPv4, sixteen for IPv6. */
  datatype Addr = Addr(bytes: seq<Byte>) {
    predicate Valid() { |bytes| == 4 || |bytes| == 16 }

    predicate Is4() { |bytes| == 4 }
  }

  datatype AddrPort = AddrPort(addr: Addr, port: Port)

  function PortBytes(p: Port): seq<Byte> { [p / 256, p % 256] }

  function PortOf(hi: Byte, lo: Byte): (p: Port)
    ensures PortBytes(p) == [hi, lo]
  {
    hi * 256 + lo
  }

  // ---------------------------------------------------------------------------
  // Writing
  // ---------------------------------------------------------------------------

  /** The datagram sendTo and pumpUDPEgress build. */
  function Encode(dst: AddrPort, payload: seq<Byte>): seq<Byte> {
    [0, 0, 0] + [if dst.addr.Is4() then 1 else 4] + dst.addr.bytes + PortBytes(dst.port) + payload
  }

  method WriteDatagram(dst: AddrPort, payload: seq<Byte>) returns (hdr: seq<Byte>)
    ensures hdr == Encode(dst, payload)
  {
    hdr := [0, 0, 0];
    if dst.addr.Is4() {
      hdr := hdr + [1];
    } else {
      hdr := hdr + [4];
    }
    hdr := hdr + dst.addr.bytes;
    hdr := hdr + [dst.port / 256, dst.port % 256];
    hdr := hdr + payload;
  }

  // ---------------------------------------------------------------------------
  // The relay's reader
  // ---------------------------------------------------------------------------

  /** netip.ParseAddr on a domain field that holds an address literal. */
  type Literal = seq<Byte> -> Option<Addr>

  /** splitSocks5Addr. */
  function SplitAddr(literal: Literal, b: seq<Byte>, atyp: Byte): Result<(Addr, seq<Byte>)> {
    if atyp == 1 then
      if |b| < 4 then Err else Ok((Addr(b[..4]), b[4..]))
    else if atyp == 4 then
      if |b| < 16 then Err else Ok((Addr(b[..16]), b[16..]))
    else if atyp == 3 then
      if |b| < 1 || |b| < 1 + (b[0] as int) then Err
      else
        var addr := literal(b[1..1 + b[0]]);
        if addr.None? then Err else Ok((addr.value, b[1 + b[0]..]))
    else Err
  }

  /** receive. */
  function Receive(literal: Literal, data: seq<Byte>): Result<(AddrPort, seq<Byte>)> {
    if |data| < 4 then Err
    else
      var split := SplitAddr(literal, data[4..], data[3]);
      if split.Err? || |split.value.1| < 2 then Err
      else
        var rest := split.value.1;
        Ok((AddrPort(split.value.0, PortOf(rest[0], rest[1])), rest[2..]))
  }

  // ---------------------------------------------------------------------------
  // The egress server's reader
  // ---------------------------------------------------------------------------

  function AddrLen(atyp: Byte): int { if atyp == 1 then 4 else if atyp == 4 then 16 else -1 }

  /** parseDatagramHeader. */
  function ParseHeader(hdr: seq<Byte>): Result<AddrPort> {
    if |hdr| < 4 then Err
    else
      var body := hdr[4..];
      if hdr[3] == 1 then
        if |body| < 6 then Err else Ok(AddrPort(Addr(body[..4]), PortOf(body[4], body[5])))
      else if hdr[3] == 4 then
        if |body| < 18 then Err else Ok(AddrPort(Addr(body[..16]), PortOf(body[16], body[17])))
      else Err
  }

  datatype Datagram =
    | Dropped
    | ToAddr(dst: AddrPort, payload: seq<Byte>)
    | ToName(name: seq<Byte>, port: Port, payload: seq<Byte>)

  /** parseDatagramDomainHeader: name, port and header length. */
  function ParseDomainHeader(data: seq<Byte>): (r: Result<(seq<Byte>, Port, nat)>)
    ensures r.Ok? ==> r.value.2 <= |data| && r.value.0 != []
  {
    if |data| < 5 then Err
    else
      var l: int := data[4];
      var hdrLen := 4 + 1 + l + 2;
      if l == 0 || |data| < hdrLen then Err
      else Ok((data[5..5 + l], PortOf(data[5 + l], data[6 + l]), hdrLen))
  }

  /** What the egress server makes of one datagram of its client. */
  function Accept(data: seq<Byte>): Datagram {
    if |data| < 4 then Dropped
    else if data[3] == 3 then
      var r := ParseDomainHeader(data);
      if r.Err? then Dropped else ToName(r.value.0, r.value.1, data[r.value.2..])
    else
      var hdrLen := 4 + AddrLen(data[3]) + 2;
      if hdrLen <= 6 || |data| < hdrLen then Dropped
      else
        var dst := ParseHeader(data[..hdrLen]);
        if dst.Err? then Dropped else ToAddr(dst.value, data[hdrLen..])
  }

  function EncodeName(name: seq<Byte>, port: Port, payload: seq<Byte>): seq<Byte>
    requires |name| < 256
  {
    [0, 0, 0] + [3, |name|] + name + PortBytes(port) + payload
  }

  // ---------------------------------------------------------------------------
  // Round trips
  // ---------------------------------------------------------------------------

  /** The parts of a datagram with an address. */
  lemma EncodedParts(dst: AddrPort, payload: seq<Byte>)
    requires dst.addr.Valid()
    ensures
      var d, n := Encode(dst, payload), |dst.addr.bytes|;
      && |d| == 6 + n + |payload| && d[3] == (if n == 4 then 1 else 4)
      && d[4..4 + n] == dst.addr.bytes && d[4 + n..6 + n] == PortBytes(dst.port) && d[6 + n..] == payload
  {
  }

  lemma PortRoundTrip(p: Port)
    ensures PortOf(PortBytes(p)[0], PortBytes(p)[1]) == p
  {
  }

  /** The relay reads back what either side wrote. */
  lemma ReceiveEncoded(literal: Literal, dst: AddrPort, payload: seq<Byte>)
    requires dst.addr.Valid()
    ensures Receive(literal, Encode(dst, payload)) == Ok((dst, payload))
  {
    var d, n := Encode(dst, payload), |dst.addr.bytes|;
    EncodedParts(dst, payload);
    PortRoundTrip(dst.port);
    var b := d[4..];
    assert b[..n] == dst.addr.bytes;
    var rest := b[n..];
    assert rest == d[4 + n..];
    assert rest[0] == d[4 + n..6 + n][0] && rest[1] == d[4 + n..6 + n][1];
    assert rest[2..] == d[6 + n..];
  }

  /** So does the egress server. */
  lemma AcceptEncoded(dst: AddrPort, payload: seq<Byte>)
    requires dst.addr.Valid()
    ensures Accept(Encode(dst, payload)) == ToAddr(dst, payload)
  {
    var d, n := Encode(dst, payload), |dst.addr.bytes|;
    EncodedParts(dst, payload);
    PortRoundTrip(dst.port);
    var body := d[..6 + n][4..];
    assert body[..n] == d[4..4 + n];
    assert body[n] == d[4 + n..6 + n][0] && body[n + 1] == d[4 + n..6 + n][1];
  }

  /** And a name comes back as it was, whatever follows it. */
  lemma AcceptNamed(name: seq<Byte>, port: Port, payload: seq<Byte>)
    requires 0 < |name| < 256
    ensures Accept(EncodeName(name, port, payload)) == ToName(name, port, payload)
  {
    var d, n := EncodeName(name, port, payload), |name|;
    PortRoundTrip(port);
    assert d[3] == 3 && d[4] == n && d[5..5 + n] == name;
    assert d[5 + n] == PortBytes(port)[0] && d[6 + n] == PortBytes(port)[1];
    assert d[7 + n..] == payload;
  }

  /** Nothing but the reserved bytes and the fragment number is lost: what was accepted as an
      address datagram is, from the address type on, the encoding of what was read. */
  lemma AcceptedIsEncoding(data: seq<Byte>)
    requires Accept(data).ToAddr?
    ensures Accept(data).dst.addr.Valid() && Encode(Accept(data).dst, Accept(data).payload)[3..] == data[3..]
  {
    var r := Accept(data);
    var n := AddrLen(data[3]);
    var hdr := data[..6 + n];
    assert hdr[4..][..n] == data[4..4 + n];
    assert r.dst.addr.bytes == data[4..4 + n];
    assert PortBytes(r.dst.port) == data[4 + n..6 + n];
    EncodedParts(r.dst, r.payload);
    assert Encode(r.dst, r.payload)[3..] == [data[3]] + data[4..4 + n] + data[4 + n..6 + n] + data[6 + n..];
  }

  /** On address datagrams the two readers agree, errors included. */
  lemma ReadersAgree(literal: Literal, data: seq<Byte>)
    requires |data| >= 4 && data[3] != 3
    ensures Accept(data).ToAddr? <==> Receive(literal, data).Ok?
    ensures Accept(data).ToAddr? ==> Receive(literal, data).value == (Accept(data).dst, Accept(data).payload)
  {
    var n := AddrLen(data[3]);
    if Accept(data).ToAddr? {
      var hdr := data[..6 + n];
      assert hdr[4..][..n] == data[4..][..n];
      assert data[4..][n..][2..] == data[6 + n..];
    }
  }

  /** The relay takes a name only where it is an address literal. */
  lemma ReceiveNamed(literal: Literal, name: seq<Byte>, port: Port, payload: seq<Byte>)
    requires |name| < 256
    ensures Receive(literal, EncodeName(name, port, payload)) ==
      if literal(name).None? then Err else Ok((AddrPort(literal(name).value, port), payload))
  {
    var d, n := EncodeName(name, port, payload), |name|;
    PortRoundTrip(port);
    var b := d[4..];
    assert d[3] == 3 && b[0] == n && b[1..1 + n] == name;
    var rest := b[1 + n..];
    assert rest == PortBytes(port) + payload && rest[2..] == payload;
  }

  /** What was accepted as a named datagram is the encoding of what was read, too. */
  lemma AcceptedIsNamed(data: seq<Byte>)
    requires Accept(data).ToName?
    ensures var r := Accept(data); 0 < |r.name| < 256 && EncodeName(r.name, r.port, r.payload)[3..] == data[3..]
  {
    var r, l: int := Accept(data), data[4];
    assert r.name == data[5..5 + l] && PortBytes(r.port) == [data[5 + l], data[6 + l]] && r.payload == data[7 + l..];
    assert EncodeName(r.name, r.port, r.payload)[3..] ==
      [data[3], data[4]] + data[5..5 + l] + [data[5 + l], data[6 + l]] + data[7 + l..];
  }

  /** The reserved bytes and the fragment number are not looked at, so that every datagram is accepted
      that is an encoding from its address type on. */
  lemma HeadIgnored(a: seq<Byte>, b: seq<Byte>)
    requires |a| >= 4 && |b| >= 4 && a[3..] == b[3..]
    ensures Accept(a) == Accept(b)
  {
    assert forall i :: 3 <= i < |a| ==> a[i] == a[3..][i - 3] && b[i] == b[3..][i - 3];
    assert |a| == |b| && forall i :: 3 <= i <= |a| ==> a[i..] == b[i..];
    if a[3] == 3 {
      if |a| >= 5 {
        assert 5 + (a[4] as int) <= |a| ==> a[5..5 + a[4]] == b[5..5 + a[4]];
      }
    } else {
      var n := 4 + AddrLen(a[3]) + 2;
      if 6 < n <= |a| {
        assert a[..n][4..] == b[..n][4..];
      }
    }
  }
}
