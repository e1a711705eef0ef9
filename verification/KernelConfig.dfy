/** The `awg setconf` text of a kernel interface: how it is printed from an inbound, and
    the part of it above the first peer. */
module KernelConfig {
  import opened Text
  import opened Amnezia

  const INTERFACE_PREFIX := "xui-awg"

  function OwnedInterfaceName(id: int): string { INTERFACE_PREFIX + DecInt(id) }

  function OwnershipMarker(name: string): string { "# 3x-ui-owned-amneziawg: " + name }

  // ---------------------------------------------------------------------------
  // What may be printed
  // ---------------------------------------------------------------------------

  /** ValidateConfigValue: no control characters. */
  predicate CleanValue(v: string) {
    forall i :: 0 <= i < |v| ==> v[i] >= ' ' && v[i] != '\U{7f}'
  }

  function PeerValues(p: Peer): seq<string> { [p.email, p.publicKey, p.presharedKey] + p.allowedIPs }

  function InterfaceValues(inst: Instance): seq<string> {
    var o := inst.obfuscation;
    [inst.privateKey, o.headerProtectionKey, o.contentPaddingAddition, o.rekeyAfterTime,
     o.rekeyTimeout, o.rejectAfterTime, o.keepaliveTimeout, o.maxHandshakeAttempts]
    + o.Headers() + o.Signatures()
  }

  /** Render accepts exactly these instances. */
  predicate Renderable(inst: Instance) {
    && inst.privateKey != ""
    && (forall v :: v in InterfaceValues(inst) ==> CleanValue(v))
    && (forall p :: p in inst.peers ==> forall v :: v in PeerValues(p) ==> CleanValue(v))
  }

  // ---------------------------------------------------------------------------
  // The lines
  // ---------------------------------------------------------------------------

  function KeyLine(key: string, value: string): string { key + " = " + value }

  function OptionalLine(key: string, value: string): seq<string> {
    if value == "" then [] else [KeyLine(key, value)]
  }

  function HeaderOrDefault(v: string, n: nat): string {
    var s := TrimSpace(v);
    if s != "" then s else Dec(n)
  }

  function PaddingLines(o: Obfuscation20): seq<string> {
    [KeyLine("Jc", DecInt(o.jc)), KeyLine("Jmin", DecInt(o.jmin)), KeyLine("Jmax", DecInt(o.jmax)),
     KeyLine("S1", DecInt(o.s1)), KeyLine("S2", DecInt(o.s2))]
    + (if o.s3 > 0 then [KeyLine("S3", DecInt(o.s3))] else [])
    + (if o.s4 > 0 then [KeyLine("S4", DecInt(o.s4))] else [])
  }

  function HeaderLines(o: Obfuscation20): seq<string> {
    [KeyLine("H1", HeaderOrDefault(o.h1, 1)), KeyLine("H2", HeaderOrDefault(o.h2, 2)),
     KeyLine("H3", HeaderOrDefault(o.h3, 3)), KeyLine("H4", HeaderOrDefault(o.h4, 4))]
  }

  function SignatureLines(o: Obfuscation20): seq<string> {
    OptionalLine("I1", o.i1) + OptionalLine("I2", o.i2) + OptionalLine("I3", o.i3)
    + OptionalLine("I4", o.i4) + OptionalLine("I5", o.i5)
  }

  function DeviceLines(o: Obfuscation20): seq<string> {
    OptionalLine("HeaderProtectionKey", TrimSpace(o.headerProtectionKey))
    + OptionalLine("ContentPaddingAddition", TrimSpace(o.contentPaddingAddition))
    + OptionalLine("RekeyAfterTime", TrimSpace(o.rekeyAfterTime))
    + OptionalLine("RekeyTimeout", TrimSpace(o.rekeyTimeout))
    + OptionalLine("RejectAfterTime", TrimSpace(o.rejectAfterTime))
    + OptionalLine("KeepaliveTimeout", TrimSpace(o.keepaliveTimeout))
    + OptionalLine("MaxHandshakeAttempts", TrimSpace(o.maxHandshakeAttempts))
  }

  function SwitchLines(o: Obfuscation20): seq<string> {
    (if o.randomTrailers then [KeyLine("RandomTrailers", "on")] else [])
    + (if o.disableCookies then [KeyLine("DisableCookies", "on")] else [])
  }

  function ObfuscationLines(o: Obfuscation20): seq<string> {
    PaddingLines(o) + HeaderLines(o) + SignatureLines(o) + DeviceLines(o) + SwitchLines(o)
  }

  function SettingLines(inst: Instance): seq<string> {
    [KeyLine("ListenPort", DecInt(inst.listenPort))] + ObfuscationLines(inst.obfuscation)
  }

  function SectionLines(inst: Instance): seq<string> {
    [KeyLine("PrivateKey", inst.privateKey)] + SettingLines(inst)
  }

  function HeadLines(inst: Instance): seq<string> {
    [OwnershipMarker(OwnedInterfaceName(inst.id)), "[Interface]"] + SectionLines(inst)
  }

  predicate Rendered(p: Peer) { p.publicKey != "" && p.allowedIPs != [] }

  function PeerLines(p: Peer): seq<string> {
    if !Rendered(p) then []
    else
      ["", "[Peer]"]
      + (if p.email == "" then [] else ["# " + p.email])
      + PeerKeyLines(p)
  }

  function PeerKeyLines(p: Peer): seq<string> {
    [KeyLine("PublicKey", p.publicKey)]
    + OptionalLine("PresharedKey", p.presharedKey)
    + [KeyLine("AllowedIPs", Join(p.allowedIPs, ", "))]
  }

  function AllPeerLines(peers: seq<Peer>): seq<string> {
    if peers == [] then [] else AllPeerLines(peers[..|peers| - 1]) + PeerLines(peers[|peers| - 1])
  }

  /** The lines Render prints, in order. */
  function RenderLines(inst: Instance): seq<string> { HeadLines(inst) + AllPeerLines(inst.peers) }

  /** Render, its builder modelled as the lines written so far. */
  method Render(inst: Instance) returns (r: Result<string>)
    ensures r == if Renderable(inst) then Ok(Unlines(RenderLines(inst))) else Err
  {
    if !Renderable(inst) {
      return Err;
    }
    var b := WritePeers(HeadLines(inst), inst.peers);
    r := Ok(Unlines(b));
  }

  method WritePeers(head: seq<string>, peers: seq<Peer>) returns (b: seq<string>)
    ensures b == head + AllPeerLines(peers)
  {
    b := head;
    for k := 0 to |peers|
      invariant b == head + AllPeerLines(peers[..k])
    {
      b := WritePeer(b, peers[k]);
      NextPeerLines(head, peers, k);
    }
    assert peers[..|peers|] == peers;
  }

  lemma NextPeerLines(head: seq<string>, peers: seq<Peer>, k: nat)
    requires k < |peers|
    ensures head + AllPeerLines(peers[..k + 1]) == head + AllPeerLines(peers[..k]) + PeerLines(peers[k])
  {
    assert peers[..k + 1][..k] == peers[..k];
  }

  method WritePeer(b: seq<string>, p: Peer) returns (r: seq<string>)
    ensures r == b + PeerLines(p)
  {
    r := b;
    if p.publicKey == "" || p.allowedIPs == [] {
      return;
    }
    r := r + ["", "[Peer]"];
    if p.email != "" {
      r := r + ["# " + p.email];
    }
    r := r + [KeyLine("PublicKey", p.publicKey)];
    if p.presharedKey != "" {
      r := r + [KeyLine("PresharedKey", p.presharedKey)];
    }
    r := r + [KeyLine("AllowedIPs", Join(p.allowedIPs, ", "))];
  }

  lemma TwoLines(ls: seq<string>)
    requires |ls| == 2
    ensures Unlines(ls) == ls[0] + "\n" + ls[1] + "\n"
  {
    assert ls[1..] == [ls[1]];
    assert Unlines(ls[1..]) == ls[1] + "\n" + Unlines([]);
  }

  // ---------------------------------------------------------------------------
  // The interface section
  // ---------------------------------------------------------------------------

  /** The config above its first peer: what adoption compares. */
  function InterfaceSection(conf: string): string {
    var i := Index(conf, "\n[Peer]");
    if i >= 0 then conf[..i] else conf
  }

  /** A line no peer header can start at. */
  predicate NoPeerHeader(line: string) { OneLine(line) && !("[Peer]" <= line) }

  lemma {:induction false} NoHeaderInside(lines: seq<string>, tail: string)
    requires forall l :: l in lines ==> NoPeerHeader(l)
    requires !("[Peer]" <= tail)
    ensures forall j :: 0 <= j < |Unlines(lines)| ==> !("\n[Peer]" <= (Unlines(lines) + tail)[j..])
  {
    if lines == [] {
      return;
    }
    NoHeaderInside(lines[1..], tail);
    var rest := Unlines(lines[1..]) + tail;
    var text := Unlines(lines) + tail;
    assert NoPeerHeader(lines[0]);
    assert text == lines[0] + "\n" + rest;
    forall j | 0 <= j < |Unlines(lines)| ensures !("\n[Peer]" <= text[j..]) {
      if j < |lines[0]| {
        assert text[j..][0] == lines[0][j];
      } else if j > |lines[0]| {
        assert text[j..] == rest[j - |lines[0]| - 1..];
      } else {
        StartsNoPeer(lines[1..], tail);
        assert text[j..][1..] == rest;
        assert "\n[Peer]"[1..] == "[Peer]";
      }
    }
  }

  lemma StartsNoPeer(lines: seq<string>, tail: string)
    requires forall l :: l in lines ==> NoPeerHeader(l)
    requires !("[Peer]" <= tail)
    ensures !("[Peer]" <= Unlines(lines) + tail)
  {
    if lines != [] {
      var text := Unlines(lines) + tail;
      var l := lines[0];
      assert NoPeerHeader(l);
      assert text == l + "\n" + (Unlines(lines[1..]) + tail);
      assert forall k :: 0 <= k < 6 ==> "[Peer]"[k] != '\n';
      assert text[|l|] == '\n';
      assert |l| >= 6 ==> l[..6] == text[..6];
    } else {
      assert Unlines(lines) + tail == tail;
    }
  }

  lemma {:induction false} PeerTextStart(peers: seq<Peer>)
    ensures AllPeerLines(peers) ==
      [] || (|AllPeerLines(peers)| > 2 && AllPeerLines(peers)[0] == "" && AllPeerLines(peers)[1] == "[Peer]")
  {
    if peers != [] {
      PeerTextStart(peers[..|peers| - 1]);
    }
  }

  predicate CleanLine(line: string) { CleanValue(line) }

  lemma CleanTrim(v: string)
    requires CleanValue(v)
    ensures CleanValue(TrimSpace(v))
  {
    CleanTrimLeft(v);
    CleanTrimRight(TrimLeft(v));
  }

  lemma {:induction false} CleanTrimLeft(v: string)
    requires CleanValue(v)
    ensures CleanValue(TrimLeft(v))
  {
    if v != "" && IsSpace(v[0]) {
      CleanTrimLeft(v[1..]);
    }
  }

  lemma {:induction false} CleanTrimRight(v: string)
    requires CleanValue(v)
    ensures CleanValue(TrimRight(v))
  {
    if v != "" && IsSpace(v[|v| - 1]) {
      CleanTrimRight(v[..|v| - 1]);
    }
  }

  lemma {:induction false} CleanJoin(parts: seq<string>)
    requires forall p :: p in parts ==> CleanValue(p)
    ensures CleanValue(Join(parts, ", "))
  {
    if |parts| > 1 {
      CleanJoin(parts[1..]);
      assert CleanValue(parts[0]);
    }
  }

  predicate InterfaceLineOf(line: string, key: string, value: string) {
    key in INTERFACE_KEYS && value != "" && CleanValue(value) && line == KeyLine(key, value)
  }

  /** A line "key = value" with one of the interface keys and a printable, non-empty value. */
  ghost predicate InterfaceLine(line: string) {
    exists key, value :: InterfaceLineOf(line, key, value)
  }

  /** An interface line that is not the private key's. */
  ghost predicate SettingLine(line: string) {
    exists key, value :: InterfaceLineOf(line, key, value) && key != "PrivateKey"
  }

  const INTERFACE_KEYS: set<string> := {
    "PrivateKey", "ListenPort", "Jc", "Jmin", "Jmax", "S1", "S2", "S3", "S4", "H1", "H2", "H3", "H4",
    "I1", "I2", "I3", "I4", "I5", "HeaderProtectionKey", "ContentPaddingAddition", "RekeyAfterTime",
    "RekeyTimeout", "RejectAfterTime", "KeepaliveTimeout", "MaxHandshakeAttempts", "RandomTrailers",
    "DisableCookies" }

  const PEER_KEYS: set<string> := {"PublicKey", "PresharedKey", "AllowedIPs"}

  /** Every key is letters and digits only. */
  predicate PlainKey(key: string) {
    key != "" && forall i :: 0 <= i < |key| ==> 'a' <= key[i] <= 'z' || 'A' <= key[i] <= 'Z' || '0' <= key[i] <= '9'
  }

  lemma KeysArePlain(key: string)
    requires key in INTERFACE_KEYS || key in PEER_KEYS
    ensures PlainKey(key)
  {
    if key in PEER_KEYS {
      PeerKeysArePlain(key);
    } else {
      InterfaceKeysArePlain(key);
    }
  }

  lemma PeerKeysArePlain(key: string)
    requires key in PEER_KEYS
    ensures PlainKey(key)
  {
  }

  lemma ShortKeysArePlain(key: string)
    requires key in INTERFACE_KEYS && |key| <= 4
    ensures PlainKey(key)
  {
  }

  lemma InterfaceKeysArePlain(key: string)
    requires key in INTERFACE_KEYS
    ensures PlainKey(key)
  {
    if |key| <= 4 {
      ShortKeysArePlain(key);
    }
  }

  ghost predicate AllInterfaceLines(lines: seq<string>) { forall l :: l in lines ==> InterfaceLine(l) }

  ghost predicate AllSettingLines(lines: seq<string>) { forall l :: l in lines ==> SettingLine(l) }

  lemma MakeLine(key: string, value: string)
    requires key in INTERFACE_KEYS && key != "PrivateKey" && value != "" && CleanValue(value)
    ensures SettingLine(KeyLine(key, value))
  {
    assert InterfaceLineOf(KeyLine(key, value), key, value);
  }

  lemma MakeOptional(key: string, value: string)
    requires key in INTERFACE_KEYS && key != "PrivateKey" && CleanValue(value)
    ensures AllSettingLines(OptionalLine(key, value))
  {
    if value != "" {
      MakeLine(key, value);
    }
  }

  lemma DecIsClean(n: int)
    ensures DecInt(n) != "" && CleanValue(DecInt(n))
  {
  }

  lemma PaddingIsSetting(o: Obfuscation20)
    ensures AllSettingLines(PaddingLines(o))
  {
    DecIsClean(o.jc); DecIsClean(o.jmin); DecIsClean(o.jmax);
    DecIsClean(o.s1); DecIsClean(o.s2); DecIsClean(o.s3); DecIsClean(o.s4);
    MakeLine("Jc", DecInt(o.jc)); MakeLine("Jmin", DecInt(o.jmin)); MakeLine("Jmax", DecInt(o.jmax));
    MakeLine("S1", DecInt(o.s1)); MakeLine("S2", DecInt(o.s2));
    MakeLine("S3", DecInt(o.s3)); MakeLine("S4", DecInt(o.s4));
  }

  lemma HeaderIsSetting(key: string, v: string, n: nat)
    requires key in INTERFACE_KEYS && key != "PrivateKey" && CleanValue(v)
    ensures SettingLine(KeyLine(key, HeaderOrDefault(v, n)))
  {
    CleanTrim(v);
    DecIsClean(n);
    MakeLine(key, HeaderOrDefault(v, n));
  }

  lemma TrimmedIsSetting(key: string, v: string)
    requires key in INTERFACE_KEYS && key != "PrivateKey" && CleanValue(v)
    ensures AllSettingLines(OptionalLine(key, TrimSpace(v)))
  {
    CleanTrim(v);
    MakeOptional(key, TrimSpace(v));
  }

  lemma HeadersAreSettings(o: Obfuscation20)
    requires CleanValue(o.h1) && CleanValue(o.h2) && CleanValue(o.h3) && CleanValue(o.h4)
    ensures AllSettingLines(HeaderLines(o))
  {
    HeaderIsSetting("H1", o.h1, 1); HeaderIsSetting("H2", o.h2, 2);
    HeaderIsSetting("H3", o.h3, 3); HeaderIsSetting("H4", o.h4, 4);
  }

  lemma SignaturesAreSettings(o: Obfuscation20)
    requires CleanValue(o.i1) && CleanValue(o.i2) && CleanValue(o.i3) && CleanValue(o.i4) && CleanValue(o.i5)
    ensures AllSettingLines(SignatureLines(o))
  {
    MakeOptional("I1", o.i1); MakeOptional("I2", o.i2); MakeOptional("I3", o.i3);
    MakeOptional("I4", o.i4); MakeOptional("I5", o.i5);
  }

  lemma DeviceIsSetting(o: Obfuscation20)
    requires CleanValue(o.headerProtectionKey) && CleanValue(o.contentPaddingAddition) && CleanValue(o.rekeyAfterTime)
    requires CleanValue(o.rekeyTimeout) && CleanValue(o.rejectAfterTime) && CleanValue(o.keepaliveTimeout)
    requires CleanValue(o.maxHandshakeAttempts)
    ensures AllSettingLines(DeviceLines(o))
  {
    TrimmedIsSetting("HeaderProtectionKey", o.headerProtectionKey);
    TrimmedIsSetting("ContentPaddingAddition", o.contentPaddingAddition);
    TrimmedIsSetting("RekeyAfterTime", o.rekeyAfterTime);
    TrimmedIsSetting("RekeyTimeout", o.rekeyTimeout);
    TrimmedIsSetting("RejectAfterTime", o.rejectAfterTime);
    TrimmedIsSetting("KeepaliveTimeout", o.keepaliveTimeout);
    TrimmedIsSetting("MaxHandshakeAttempts", o.maxHandshakeAttempts);
  }

  lemma SwitchesAreSettings(o: Obfuscation20)
    ensures AllSettingLines(SwitchLines(o))
  {
    MakeLine("RandomTrailers", "on"); MakeLine("DisableCookies", "on");
  }

  lemma ObfuscationIsSetting(inst: Instance)
    requires Renderable(inst)
    ensures AllSettingLines(ObfuscationLines(inst.obfuscation))
  {
    var o := inst.obfuscation;
    var vs := InterfaceValues(inst);
    assert vs[1] == o.headerProtectionKey && vs[2] == o.contentPaddingAddition && vs[3] == o.rekeyAfterTime
        && vs[4] == o.rekeyTimeout && vs[5] == o.rejectAfterTime && vs[6] == o.keepaliveTimeout
        && vs[7] == o.maxHandshakeAttempts && vs[8] == o.h1 && vs[9] == o.h2 && vs[10] == o.h3 && vs[11] == o.h4
        && vs[12] == o.i1 && vs[13] == o.i2 && vs[14] == o.i3 && vs[15] == o.i4 && vs[16] == o.i5;
    PaddingIsSetting(o);
    HeadersAreSettings(o);
    SignaturesAreSettings(o);
    DeviceIsSetting(o);
    SwitchesAreSettings(o);
  }

  lemma SettingsAreSettings(inst: Instance)
    requires Renderable(inst)
    ensures AllSettingLines(SettingLines(inst))
  {
    DecIsClean(inst.listenPort);
    MakeLine("ListenPort", DecInt(inst.listenPort));
    ObfuscationIsSetting(inst);
  }

  /** Everything below the section header and above the peers is interface lines. */
  lemma HeadIsInterface(inst: Instance)
    requires Renderable(inst)
    ensures AllInterfaceLines(SectionLines(inst))
  {
    assert InterfaceValues(inst)[0] == inst.privateKey;
    assert InterfaceLineOf(KeyLine("PrivateKey", inst.privateKey), "PrivateKey", inst.privateKey);
    SettingsAreSettings(inst);
    SettingsAreInterface(KeyLine("PrivateKey", inst.privateKey), SettingLines(inst));
  }

  lemma SettingsAreInterface(first: string, lines: seq<string>)
    requires InterfaceLine(first) && AllSettingLines(lines)
    ensures AllInterfaceLines([first] + lines)
  {
  }

  lemma InterfaceLineShape(line: string)
    requires InterfaceLine(line)
    ensures CleanLine(line) && line != "" && line[0] != '#' && line[0] != '[' && OneLine(line) && NoPeerHeader(line)
  {
    var key, value :| InterfaceLineOf(line, key, value);
    KeysArePlain(key);
    assert line[0] == key[0];
    forall i | 0 <= i < |line| ensures line[i] >= ' ' && line[i] != '\U{7f}' {
      if i >= |key| + 3 {
        assert line[i] == value[i - |key| - 3];
      } else if i >= |key| {
        assert line[i] == " = "[i - |key|];
      }
    }
    assert '[' == "[Peer]"[0];
  }

  lemma MarkerIsClean(id: int)
    ensures var m := OwnershipMarker(OwnedInterfaceName(id)); CleanLine(m) && OneLine(m) && NoPeerHeader(m)
  {
    DecIsClean(id);
    var m := OwnershipMarker(OwnedInterfaceName(id));
    assert m == "# 3x-ui-owned-amneziawg: xui-awg" + DecInt(id);
    assert m[0] == '#';
    assert '[' == "[Peer]"[0];
  }

  lemma HeadLinesShape(marker: string, section: seq<string>)
    requires CleanLine(marker) && NoPeerHeader(marker) && AllInterfaceLines(section)
    ensures forall l :: l in [marker, "[Interface]"] + section ==> NoPeerHeader(l) && CleanLine(l)
  {
    assert "[Interface]"[1] == 'I' && "[Peer]"[1] == 'P';
    forall l | l in section ensures NoPeerHeader(l) && CleanLine(l) {
      InterfaceLineShape(l);
    }
  }

  lemma HeadHasNoPeer(inst: Instance)
    requires Renderable(inst)
    ensures forall l :: l in HeadLines(inst) ==> NoPeerHeader(l) && CleanLine(l)
  {
    HeadIsInterface(inst);
    MarkerIsClean(inst.id);
    HeadLinesShape(OwnershipMarker(OwnedInterfaceName(inst.id)), SectionLines(inst));
  }

  /** Printed peers start with an empty line and a header. */
  lemma PeersFollow(peers: seq<Peer>)
    requires AllPeerLines(peers) != []
    ensures "\n[Peer]" <= Unlines(AllPeerLines(peers)) && Unlines(AllPeerLines(peers))[0] == '\n'
  {
    var ls := AllPeerLines(peers);
    PeerTextStart(peers);
    assert ls == ["", "[Peer]"] + ls[2..];
    UnlinesAppend(["", "[Peer]"], ls[2..]);
    TwoLines(["", "[Peer]"]);
    assert "\n[Peer]"[0] == '\n';
  }

  lemma SectionAbovePeers(lines: seq<string>, peers: seq<Peer>)
    requires forall l :: l in lines ==> NoPeerHeader(l)
    ensures InterfaceSection(Unlines(lines + AllPeerLines(peers))) == Unlines(lines)
  {
    var ls := AllPeerLines(peers);
    var head, body := Unlines(lines), Unlines(ls);
    UnlinesAppend(lines, ls);
    PeerTextStart(peers);
    if ls == [] {
      NoHeaderInside(lines, "");
      assert head + body == head && head + "" == head;
    } else {
      PeersFollow(peers);
      NoHeaderInside(lines, body);
      assert (head + body)[|head|..] == body;
      IndexIs(head + body, "\n[Peer]", |head|);
    }
  }

  /** The interface section of a printed config is the printed head, whatever the peers. */
  lemma SectionIsHead(inst: Instance)
    requires Renderable(inst)
    ensures InterfaceSection(Unlines(RenderLines(inst))) == Unlines(HeadLines(inst))
  {
    HeadHasNoPeer(inst);
    SectionAbovePeers(HeadLines(inst), inst.peers);
  }

  /** Two inbounds that differ only in their peers print the same interface section. */
  lemma SectionIgnoresPeers(a: Instance, b: Instance)
    requires Renderable(a) && Renderable(b)
    requires a.id == b.id && a.privateKey == b.privateKey
    requires a.listenPort == b.listenPort && a.obfuscation == b.obfuscation
    ensures InterfaceSection(Unlines(RenderLines(a))) == InterfaceSection(Unlines(RenderLines(b)))
  {
    SectionIsHead(a);
    SectionIsHead(b);
  }

  // ---------------------------------------------------------------------------
  // The structural fingerprint
  // ---------------------------------------------------------------------------

  /** What structuralFingerprint hashes. SHA-256 is taken as injective, so the text
      stands for its digest. */
  function StructuralText(conf: string, addresses: seq<string>, mtu: int): string {
    InterfaceSection(conf) + "\naddress=" + Join(addresses, ",") + "\nmtu=" + DecInt(mtu)
  }

  /** A printed prefix: neither separator of the fingerprint occurs in it. */
  predicate AddressText(a: string) { '\n' !in a && ',' !in a }

  lemma {:induction false} JoinOneLine(parts: seq<string>)
    requires forall p :: p in parts ==> AddressText(p)
    ensures OneLine(Join(parts, ","))
  {
    if |parts| == 1 {
      assert AddressText(parts[0]);
    } else if |parts| > 1 {
      JoinOneLine(parts[1..]);
      assert AddressText(parts[0]) && OneLine(",");
    }
  }

  lemma SplitStructural(conf: string, addresses: seq<string>, mtu: int)
    requires forall a :: a in addresses ==> AddressText(a)
    ensures Split(StructuralText(conf, addresses, mtu), '\n')
         == Split(InterfaceSection(conf), '\n') + ["address=" + Join(addresses, ","), "mtu=" + DecInt(mtu)]
  {
    var section, x, y := InterfaceSection(conf), "address=" + Join(addresses, ","), "mtu=" + DecInt(mtu);
    JoinOneLine(addresses);
    assert OneLine("address=") && OneLine("mtu=") && OneLine(DecInt(mtu));
    SplitThree(section, x, y);
    assert "\naddress=" == ['\n'] + "address=" && "\nmtu=" == ['\n'] + "mtu=";
    Regroup(section, ['\n'], "address=", Join(addresses, ","), "mtu=", DecInt(mtu));
  }

  lemma Regroup(a: string, sep: string, b: string, c: string, d: string, e: string)
    ensures a + (sep + b) + c + (sep + d) + e == a + sep + ((b + c) + sep + (d + e))
  {
  }

  lemma SplitThree(section: string, x: string, y: string)
    requires OneLine(x) && OneLine(y)
    ensures Split(section + ['\n'] + (x + ['\n'] + y), '\n') == Split(section, '\n') + [x, y]
  {
    SplitConcat(section, '\n', x + ['\n'] + y);
    SplitAfter(x, '\n', y);
    SplitNone(y, '\n');
  }

  /** Equal fingerprints mean the same interface section, addresses and MTU. */
  lemma StructuralTextInjective(c1: string, a1: seq<string>, m1: int, c2: string, a2: seq<string>, m2: int)
    requires a1 != [] && a2 != []
    requires forall a :: a in a1 + a2 ==> AddressText(a)
    requires StructuralText(c1, a1, m1) == StructuralText(c2, a2, m2)
    ensures InterfaceSection(c1) == InterfaceSection(c2) && a1 == a2 && m1 == m2
  {
    forall a | a in a1 || a in a2 ensures AddressText(a) {
      assert a in a1 + a2;
    }
    SplitStructural(c1, a1, m1);
    SplitStructural(c2, a2, m2);
    var s1, s2 := Split(InterfaceSection(c1), '\n'), Split(InterfaceSection(c2), '\n');
    var x1, x2 := "address=" + Join(a1, ","), "address=" + Join(a2, ",");
    var y1, y2 := "mtu=" + DecInt(m1), "mtu=" + DecInt(m2);
    var whole := s1 + [x1, y1];
    assert whole == s2 + [x2, y2];
    assert s1 == whole[..|whole| - 2] == s2;
    assert x1 == whole[|whole| - 2] == x2 && y1 == whole[|whole| - 1] == y2;
    JoinSplit(InterfaceSection(c1), '\n');
    JoinSplit(InterfaceSection(c2), '\n');
    assert Join(a1, ",") == x1[8..] && Join(a2, ",") == x2[8..];
    SplitJoin(a1, ',');
    SplitJoin(a2, ',');
    assert DecInt(m1) == y1[4..] && DecInt(m2) == y2[4..];
    DecIntInjective(m1, m2);
  }
}
