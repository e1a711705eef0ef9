/** The UAPI text an embedded device is configured with. The manager takes an unchanged text as
    proof that nothing the device acts on has changed, so the text must tell peers apart. */
module UapiConfig {
  import opened Text
  import opened Amnezia
  import Params

  /** KeyToHex. */
  type Hex = string -> Option<string>

  datatype Options = Options(
    headerProtectionKey: string, contentPaddingAddition: string, rekeyAfterTime: string, rekeyTimeout: string,
    rejectAfterTime: string, keepaliveTimeout: string, maxHandshakeAttempts: string,
    randomTrailers: bool, disableCookies: bool)

  /** The device settings the text can carry. */
  datatype Name =
    | PrivateKey | ListenPort | ReplacePeers | Jc | Jmin | Jmax | S1
    | S2 | S3 | S4 | H1 | H2 | H3 | H4
    | I1 | I2 | I3 | I4 | I5 | HeaderProtectionKey | ContentPaddingAddition
    | RekeyAfterTime | RekeyTimeout | RejectAfterTime | KeepaliveTimeout | MaxHandshakeAttempts
    | RandomTrailers | DisableCookies
  {
    /** No device line can pass for the start of a peer, whose second letter is u. */
    function Show(): (s: string)
      ensures |s| >= 2 && s[1] != 'u'
    {
      match this
      case PrivateKey => "private_key"
      case ListenPort => "listen_port"
      case ReplacePeers => "replace_peers"
      case Jc => "jc"
      case Jmin => "jmin"
      case Jmax => "jmax"
      case S1 => "s1"
      case S2 => "s2"
      case S3 => "s3"
      case S4 => "s4"
      case H1 => "h1"
      case H2 => "h2"
      case H3 => "h3"
      case H4 => "h4"
      case I1 => "i1"
      case I2 => "i2"
      case I3 => "i3"
      case I4 => "i4"
      case I5 => "i5"
      case HeaderProtectionKey => "header_protection_key"
      case ContentPaddingAddition => "content_padding_addition"
      case RekeyAfterTime => "rekey_after_time"
      case RekeyTimeout => "rekey_timeout"
      case RejectAfterTime => "reject_after_time"
      case KeepaliveTimeout => "keepalive_timeout"
      case MaxHandshakeAttempts => "max_handshake_attempts"
      case RandomTrailers => "random_trailers"
      case DisableCookies => "disable_cookies"
    }
  }

  /** One device line; an optional one is left out while its value is blank. */
  datatype Field = Field(name: Name, value: string, optional: bool)

  function Line(name: string, value: string): string { name + "=" + value }

  function FieldLines(fields: seq<Field>): seq<string> {
    if fields == [] then []
    else if fields[0].optional && fields[0].value == "" then FieldLines(fields[1..])
    else [Line(fields[0].name.Show(), fields[0].value)] + FieldLines(fields[1..])
  }

  function Bool(b: bool): string { if b then "true" else "false" }

  const ZERO_KEY := "0000000000000000000000000000000000000000000000000000000000000000"

  function LinkFields(priv: string, inst: Instance): seq<Field> {
    [Field(PrivateKey, priv, false), Field(ListenPort, DecInt(inst.listenPort), false),
     Field(ReplacePeers, "true", false)]
  }

  function JunkFields(o: Obfuscation20): seq<Field> {
    [Field(Jc, DecInt(o.jc), false), Field(Jmin, DecInt(o.jmin), false), Field(Jmax, DecInt(o.jmax), false),
     Field(S1, DecInt(o.s1), false), Field(S2, DecInt(o.s2), false), Field(S3, DecInt(o.s3), false),
     Field(S4, DecInt(o.s4), false)]
  }

  function TypeFields(o: Obfuscation20): seq<Field> {
    [Field(H1, o.h1, true), Field(H2, o.h2, true), Field(H3, o.h3, true), Field(H4, o.h4, true),
     Field(I1, o.i1, true), Field(I2, o.i2, true), Field(I3, o.i3, true), Field(I4, o.i4, true), Field(I5, o.i5, true)]
  }

  function OptionFields(hp: string, opts: Options): seq<Field> {
    [Field(HeaderProtectionKey, hp, false), Field(ContentPaddingAddition, opts.contentPaddingAddition, true),
     Field(RekeyAfterTime, opts.rekeyAfterTime, true), Field(RekeyTimeout, opts.rekeyTimeout, true),
     Field(RejectAfterTime, opts.rejectAfterTime, true), Field(KeepaliveTimeout, opts.keepaliveTimeout, true),
     Field(MaxHandshakeAttempts, opts.maxHandshakeAttempts, true),
     Field(RandomTrailers, Bool(opts.randomTrailers), false), Field(DisableCookies, Bool(opts.disableCookies), false)]
  }

  function DeviceFields(priv: string, hp: string, inst: Instance, opts: Options): seq<Field> {
    LinkFields(priv, inst) + JunkFields(inst.obfuscation) + TypeFields(inst.obfuscation) + OptionFields(hp, opts)
  }

  /** What the device learns of a peer. */
  datatype View = View(pub: string, psk: Option<string>, ips: seq<string>)

  function ViewOf(hex: Hex, p: Peer): Option<View> {
    var pub, psk := hex(p.publicKey), hex(p.presharedKey);
    if pub.None? || (p.presharedKey != "" && psk.None?) then None
    else Some(View(pub.value, if p.presharedKey == "" then None else Some(psk.value), p.allowedIPs))
  }

  function Views(hex: Hex, peers: seq<Peer>): Option<seq<View>> {
    if peers == [] then Some([])
    else
      var first, rest := ViewOf(hex, peers[0]), Views(hex, peers[1..]);
      if first.None? || rest.None? then None else Some([first.value] + rest.value)
  }

  function IpLines(ips: seq<string>): seq<string> {
    if ips == [] then [] else [Line("allowed_ip", ips[0])] + IpLines(ips[1..])
  }

  function PskLines(v: View): seq<string> { if v.psk.None? then [] else [Line("preshared_key", v.psk.value)] }

  function ViewLines(v: View): seq<string> { [Line("public_key", v.pub)] + (PskLines(v) + IpLines(v.ips)) }

  function PeerLines(views: seq<View>): seq<string> {
    if views == [] then [] else ViewLines(views[0]) + PeerLines(views[1..])
  }

  /** The header protection line is always there: blank means the all-zero key. */
  function HeaderKey(hex: Hex, opts: Options): Option<string> {
    if opts.headerProtectionKey == "" then Some(ZERO_KEY) else hex(opts.headerProtectionKey)
  }

  /** buildUAPIConfig's lines, or the error of an undecodable key or an unbounded preamble. */
  function ConfigLines(hex: Hex, inst: Instance, opts: Options): Result<seq<string>> {
    var priv, hp, views := hex(inst.privateKey), HeaderKey(hex, opts), Views(hex, inst.peers);
    if priv.None? || !Params.ValidPreamble(inst.obfuscation) || hp.None? || views.None? then Err
    else Ok(FieldLines(DeviceFields(priv.value, hp.value, inst, opts)) + PeerLines(views.value))
  }

  function Config(hex: Hex, inst: Instance, opts: Options): Result<string> {
    var lines := ConfigLines(hex, inst, opts); if lines.Err? then Err else Ok(Unlines(lines.value))
  }

  // ---------------------------------------------------------------------------
  // Writing it
  // ---------------------------------------------------------------------------

  method BuildUAPIConfig(hex: Hex, inst: Instance, opts: Options) returns (r: Result<string>)
    ensures r == Config(hex, inst, opts)
  {
    var priv := hex(inst.privateKey);
    if priv.None? || !Params.ValidPreamble(inst.obfuscation) {
      return Err;
    }
    var hp := HeaderKey(hex, opts);
    if hp.None? {
      return Err;
    }
    var head := WriteFields(DeviceFields(priv.value, hp.value, inst, opts));
    var peers := WritePeers(hex, inst.peers);
    if peers.Err? {
      return Err;
    }
    UnlinesAppend(FieldLines(DeviceFields(priv.value, hp.value, inst, opts)), PeerLines(Views(hex, inst.peers).value));
    r := Ok(head + peers.value);
  }

  /** writeOptionalLine and its unconditional siblings. */
  method WriteFields(fields: seq<Field>) returns (b: string)
    ensures b == Unlines(FieldLines(fields))
  {
    b := "";
    for i := 0 to |fields|
      invariant b + Unlines(FieldLines(fields[i..])) == Unlines(FieldLines(fields))
    {
      var f := fields[i];
      assert fields[i..][1..] == fields[i + 1..];
      if !(f.optional && f.value == "") {
        UnlinesAppend([Line(f.name.Show(), f.value)], FieldLines(fields[i + 1..]));
        b := b + Line(f.name.Show(), f.value) + "\n";
      }
    }
  }

  /** What the writer still has to add for the remaining peers. */
  ghost predicate Written(hex: Hex, peers: seq<Peer>, b: string, rest: seq<Peer>) {
    var all, left := Views(hex, peers), Views(hex, rest);
    if left.None? then all.None? else all.Some? && b + Unlines(PeerLines(left.value)) == Unlines(PeerLines(all.value))
  }

  method WritePeers(hex: Hex, peers: seq<Peer>) returns (r: Result<string>)
    ensures r == if Views(hex, peers).None? then Err else Ok(Unlines(PeerLines(Views(hex, peers).value)))
  {
    var b := "";
    for i := 0 to |peers|
      invariant Written(hex, peers, b, peers[i..])
    {
      var v := ViewOf(hex, peers[i]);
      WrittenStep(hex, peers, b, peers[i..]);
      assert peers[i..][1..] == peers[i + 1..];
      if v.None? {
        return Err;
      }
      var text := WriteView(v.value);
      b := b + text;
    }
    WrittenAll(hex, peers, b);
    assert peers[|peers|..] == [];
    r := Ok(b);
  }

  lemma WrittenAll(hex: Hex, peers: seq<Peer>, b: string)
    ensures Written(hex, peers, b, []) ==> Views(hex, peers).Some? && b == Unlines(PeerLines(Views(hex, peers).value))
  {
    assert Views(hex, []) == Some([]) && PeerLines([]) == [] && Unlines([]) == "" && b + "" == b;
  }

  lemma WrittenStep(hex: Hex, peers: seq<Peer>, b: string, rest: seq<Peer>)
    requires Written(hex, peers, b, rest) && rest != []
    ensures ViewOf(hex, rest[0]).None? ==> Views(hex, peers).None?
    ensures ViewOf(hex, rest[0]).Some? ==>
      Written(hex, peers, b + Unlines(ViewLines(ViewOf(hex, rest[0]).value)), rest[1..])
  {
    var v, more := ViewOf(hex, rest[0]), Views(hex, rest[1..]);
    if v.Some? && more.Some? {
      var views := [v.value] + more.value;
      assert views[1..] == more.value && PeerLines(views) == ViewLines(v.value) + PeerLines(more.value);
      UnlinesAppend(ViewLines(v.value), PeerLines(more.value));
    }
  }

  lemma UnlinesOne(line: string)
    ensures Unlines([line]) == line + "\n"
  {
    var none: seq<string> := [];
    assert [line][1..] == none && Unlines(none) == "";
  }

  method WriteView(v: View) returns (b: string)
    ensures b == Unlines(ViewLines(v))
  {
    b := Line("public_key", v.pub) + "\n";
    if v.psk.Some? {
      b := b + Line("preshared_key", v.psk.value) + "\n";
    }
    ViewText(v);
    var ips := WriteIps(v.ips);
    b := b + ips;
  }

  method WriteIps(ips: seq<string>) returns (b: string)
    ensures b == Unlines(IpLines(ips))
  {
    b := "";
    for i := 0 to |ips|
      invariant b + Unlines(IpLines(ips[i..])) == Unlines(IpLines(ips))
    {
      assert ips[i..][1..] == ips[i + 1..];
      UnlinesAppend([Line("allowed_ip", ips[i])], IpLines(ips[i + 1..]));
      UnlinesOne(Line("allowed_ip", ips[i]));
      b := b + Line("allowed_ip", ips[i]) + "\n";
    }
  }

  lemma ViewText(v: View)
    ensures Unlines(ViewLines(v)) == Line("public_key", v.pub) + "\n"
      + (if v.psk.Some? then Line("preshared_key", v.psk.value) + "\n" else "") + Unlines(IpLines(v.ips))
  {
    var pub, psk, ips := [Line("public_key", v.pub)], PskLines(v), IpLines(v.ips);
    UnlinesAppend(pub, psk + ips);
    UnlinesAppend(psk, ips);
    UnlinesOne(Line("public_key", v.pub));
    PskText(v);
    assert Unlines(pub) + (Unlines(psk) + Unlines(ips)) == Unlines(pub) + Unlines(psk) + Unlines(ips);
  }

  lemma PskText(v: View)
    ensures Unlines(PskLines(v)) == if v.psk.Some? then Line("preshared_key", v.psk.value) + "\n" else ""
  {
    if v.psk.Some? {
      UnlinesOne(Line("preshared_key", v.psk.value));
    }
  }

  // ---------------------------------------------------------------------------
  // Telling peers apart
  // ---------------------------------------------------------------------------

  /** What a line says, without its text. */
  datatype Token = Pub(value: string) | Psk(value: string) | Ip(value: string) | Other

  const PUB := "public_key="
  const PSK := "preshared_key="
  const IP := "allowed_ip="

  function TokenOf(line: string): Token {
    if PUB <= line then Pub(line[|PUB|..])
    else if PSK <= line then Psk(line[|PSK|..])
    else if IP <= line then Ip(line[|IP|..])
    else Other
  }

  lemma LineToken(key: string, value: string)
    ensures key + "=" <= Line(key, value) && Line(key, value)[|key + "="|..] == value
  {
  }

  lemma TokensOfLines(value: string)
    ensures TokenOf(Line("public_key", value)) == Pub(value)
    ensures TokenOf(Line("preshared_key", value)) == Psk(value)
    ensures TokenOf(Line("allowed_ip", value)) == Ip(value)
  {
    assert "public_key" + "=" == PUB && "preshared_key" + "=" == PSK && "allowed_ip" + "=" == IP;
    LineToken("public_key", value);
    LineToken("preshared_key", value);
    LineToken("allowed_ip", value);
    assert PUB[1] == 'u' && PSK[0] == 'p' && PSK[1] == 'r' && IP[0] == 'a' && PUB[0] == 'p';
  }

  function Tokens(lines: seq<string>): seq<Token> { seq(|lines|, i requires 0 <= i < |lines| => TokenOf(lines[i])) }

  lemma TokensAppend(a: seq<string>, b: seq<string>)
    ensures Tokens(a + b) == Tokens(a) + Tokens(b)
  {
  }

  function IpTokens(ips: seq<string>): seq<Token> { if ips == [] then [] else [Ip(ips[0])] + IpTokens(ips[1..]) }

  function ViewTokens(v: View): seq<Token> {
    [Pub(v.pub)] + ((if v.psk.Some? then [Psk(v.psk.value)] else []) + IpTokens(v.ips))
  }

  function PeerTokens(views: seq<View>): seq<Token> {
    if views == [] then [] else ViewTokens(views[0]) + PeerTokens(views[1..])
  }

  lemma {:induction false} IpLinesTokens(ips: seq<string>)
    ensures Tokens(IpLines(ips)) == IpTokens(ips)
  {
    if ips != [] {
      IpLinesTokens(ips[1..]);
      OneToken(Line("allowed_ip", ips[0]));
      TokensOfLines(ips[0]);
      TokensAppend([Line("allowed_ip", ips[0])], IpLines(ips[1..]));
    }
  }

  lemma OneToken(line: string)
    ensures Tokens([line]) == [TokenOf(line)]
  {
  }

  lemma ViewLinesTokens(v: View)
    ensures Tokens(ViewLines(v)) == ViewTokens(v)
  {
    TokensOfLines(v.pub);
    OneToken(Line("public_key", v.pub));
    if v.psk.Some? {
      TokensOfLines(v.psk.value);
      OneToken(Line("preshared_key", v.psk.value));
    }
    IpLinesTokens(v.ips);
    TokensAppend(PskLines(v), IpLines(v.ips));
    TokensAppend([Line("public_key", v.pub)], PskLines(v) + IpLines(v.ips));
  }

  lemma {:induction false} PeerLinesTokens(views: seq<View>)
    ensures Tokens(PeerLines(views)) == PeerTokens(views)
  {
    if views != [] {
      ViewLinesTokens(views[0]);
      PeerLinesTokens(views[1..]);
      TokensAppend(ViewLines(views[0]), PeerLines(views[1..]));
    }
  }

  lemma {:induction false} DeviceLinesStartNoPeer(fields: seq<Field>)
    ensures forall t :: t in Tokens(FieldLines(fields)) ==> !t.Pub?
  {
    if fields != [] {
      DeviceLinesStartNoPeer(fields[1..]);
      var f := fields[0];
      var line := Line(f.name.Show(), f.value);
      NotAKey(f.name, f.value);
      OneToken(line);
      TokensAppend([line], FieldLines(fields[1..]));
    }
  }

  lemma NotAKey(name: Name, value: string)
    ensures !TokenOf(Line(name.Show(), value)).Pub?
  {
    assert Line(name.Show(), value)[1] == name.Show()[1] && PUB[1] == 'u';
  }

  // ---------------------------------------------------------------------------
  // Reading the peers back
  // ---------------------------------------------------------------------------

  predicate PeerStart(ts: seq<Token>) { ts == [] || ts[0].Pub? }

  /** What follows the device lines. */
  function PeerPart(ts: seq<Token>): seq<Token> { if PeerStart(ts) then ts else PeerPart(ts[1..]) }

  lemma {:induction false} PeerPartOf(head: seq<Token>, peers: seq<Token>)
    requires PeerStart(peers) && forall t :: t in head ==> !t.Pub?
    ensures PeerPart(head + peers) == peers
  {
    if head == [] {
      assert head + peers == peers;
    } else {
      assert (head + peers)[0] == head[0] && (head + peers)[1..] == head[1..] + peers;
      PeerPartOf(head[1..], peers);
    }
  }

  function ReadIps(ts: seq<Token>): seq<string> {
    if ts == [] || !ts[0].Ip? then [] else [ts[0].value] + ReadIps(ts[1..])
  }

  function AfterIps(ts: seq<Token>): (r: seq<Token>)
    ensures |r| <= |ts|
  {
    if ts == [] || !ts[0].Ip? then ts else AfterIps(ts[1..])
  }

  function ReadViews(ts: seq<Token>): seq<View>
    decreases |ts|
  {
    if ts == [] || !ts[0].Pub? then []
    else
      var hasPsk := |ts| > 1 && ts[1].Psk?;
      var ips := if hasPsk then ts[2..] else ts[1..];
      [View(ts[0].value, if hasPsk then Some(ts[1].value) else None, ReadIps(ips))] + ReadViews(AfterIps(ips))
  }

  lemma ReadIpCons(ip: string, ts: seq<Token>)
    ensures ReadIps([Ip(ip)] + ts) == [ip] + ReadIps(ts) && AfterIps([Ip(ip)] + ts) == AfterIps(ts)
  {
    assert ([Ip(ip)] + ts)[1..] == ts;
  }

  lemma {:induction false} IpsReadBack(ips: seq<string>, rest: seq<Token>)
    requires PeerStart(rest)
    ensures ReadIps(IpTokens(ips) + rest) == ips && AfterIps(IpTokens(ips) + rest) == rest
  {
    if ips == [] {
      assert IpTokens(ips) + rest == rest;
    } else {
      var ip, more := ips[0], IpTokens(ips[1..]) + rest;
      IpsReadBack(ips[1..], rest);
      assert IpTokens(ips) + rest == [Ip(ip)] + more;
      ReadIpCons(ip, more);
      assert ips == [ip] + ips[1..];
    }
  }

  lemma ReadViewCons(v: View, ips: seq<Token>)
    requires ips == [] || !ips[0].Psk?
    ensures ReadViews([Pub(v.pub)] + ((if v.psk.Some? then [Psk(v.psk.value)] else []) + ips))
      == [View(v.pub, v.psk, ReadIps(ips))] + ReadViews(AfterIps(ips))
  {
    var ts := [Pub(v.pub)] + ((if v.psk.Some? then [Psk(v.psk.value)] else []) + ips);
    assert ts[0] == Pub(v.pub);
    if v.psk.Some? {
      assert ts[1] == Psk(v.psk.value) && ts[2..] == ips;
    } else {
      assert ts[1..] == ips;
    }
  }

  /** Peer blocks read back as the peers they were written for. */
  lemma {:induction false} ViewsReadBack(views: seq<View>)
    ensures ReadViews(PeerTokens(views)) == views && PeerStart(PeerTokens(views))
  {
    if views != [] {
      var v, rest := views[0], PeerTokens(views[1..]);
      ViewsReadBack(views[1..]);
      IpsReadBack(v.ips, rest);
      ReadViewCons(v, IpTokens(v.ips) + rest);
      ViewTokensSplit(v, rest);
      assert views == [v] + views[1..];
    }
  }

  lemma ViewTokensSplit(v: View, rest: seq<Token>)
    ensures ViewTokens(v) + rest ==
      [Pub(v.pub)] + ((if v.psk.Some? then [Psk(v.psk.value)] else []) + (IpTokens(v.ips) + rest))
    ensures (IpTokens(v.ips) + rest) == [] || v.ips != [] || IpTokens(v.ips) + rest == rest
  {
    if v.ips == [] {
      assert IpTokens(v.ips) + rest == rest;
    }
  }

  lemma PeersOfConfig(hex: Hex, inst: Instance, opts: Options)
    requires ConfigLines(hex, inst, opts).Ok?
    ensures Views(hex, inst.peers) == Some(ReadViews(PeerPart(Tokens(ConfigLines(hex, inst, opts).value))))
  {
    var views := Views(hex, inst.peers).value;
    var head := FieldLines(DeviceFields(hex(inst.privateKey).value, HeaderKey(hex, opts).value, inst, opts));
    DeviceLinesStartNoPeer(DeviceFields(hex(inst.privateKey).value, HeaderKey(hex, opts).value, inst, opts));
    TokensAppend(head, PeerLines(views));
    PeerLinesTokens(views);
    ViewsReadBack(views);
    PeerPartOf(Tokens(head), PeerTokens(views));
  }

  /** Equal texts configure equal peers, in the same order. */
  lemma ConfigTellsPeersApart(hex: Hex, i1: Instance, o1: Options, i2: Instance, o2: Options)
    requires Config(hex, i1, o1).Ok? && Config(hex, i1, o1) == Config(hex, i2, o2)
    requires AllOneLine(ConfigLines(hex, i1, o1).value) && AllOneLine(ConfigLines(hex, i2, o2).value)
    ensures Views(hex, i1.peers) == Views(hex, i2.peers)
  {
    UnlinesInjective(ConfigLines(hex, i1, o1).value, ConfigLines(hex, i2, o2).value);
    PeersOfConfig(hex, i1, o1);
    PeersOfConfig(hex, i2, o2);
  }
}
