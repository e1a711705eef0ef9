/** How the panel proves that an interface is its own: it re-reads the config it left on
    disk, accepts nothing Render could not have printed, and compares keys. */
module KernelOwnership {
  import opened Text
  import opened Amnezia
  import opened KernelConfig

  /** PublicKeyFromPrivate. */
  type Derive = string -> Option<string>

  // ---------------------------------------------------------------------------
  // Interface names
  // ---------------------------------------------------------------------------

  function ParseOwnedInterfaceName(name: string): Option<int> {
    if !(INTERFACE_PREFIX <= name) then None
    else
      match ParseInt(name[|INTERFACE_PREFIX|..])
      case None => None
      case Some(id) => if id <= 0 || OwnedInterfaceName(id) != name then None else Some(id)
  }

  /** The name parser inverts the name printer on positive ids and accepts nothing else. */
  lemma NameRoundTrip(name: string, id: int)
    requires id <= MAX_INT64
    ensures ParseOwnedInterfaceName(name) == Some(id) <==> id > 0 && name == OwnedInterfaceName(id)
  {
    if id > 0 {
      ParseDec(id);
      assert OwnedInterfaceName(id)[|INTERFACE_PREFIX|..] == Dec(id);
    }
  }

  lemma NameInjective(a: int, b: int)
    requires OwnedInterfaceName(a) == OwnedInterfaceName(b)
    ensures a == b
  {
    assert OwnedInterfaceName(a)[|INTERFACE_PREFIX|..] == DecInt(a);
    assert OwnedInterfaceName(b)[|INTERFACE_PREFIX|..] == DecInt(b);
    DecIntInjective(a, b);
  }

  // ---------------------------------------------------------------------------
  // The recogniser
  // ---------------------------------------------------------------------------

  datatype Section = Outside | InInterface | InPeer

  datatype Scan = Scan(section: Section, interfaces: nat)

  function ScanLine(st: Scan, line: string): Option<Scan> {
    if line == "" then Some(st)
    else if "#" <= line then (if st.section == InPeer then Some(st) else None)
    else if line == "[Interface]" then
      (if st.interfaces == 0 && st.section == Outside then Some(Scan(InInterface, 1)) else None)
    else if line == "[Peer]" then
      (if st.section == Outside then None else Some(st.(section := InPeer)))
    else
      match Cut(line, " = ")
      case None => None
      case Some((key, value)) =>
        if value == "" || !AllowedKey(st.section, key) then None else Some(st)
  }

  predicate AllowedKey(section: Section, key: string) {
    match section
    case Outside => false
    case InInterface => key in INTERFACE_KEYS
    case InPeer => key in PEER_KEYS
  }

  function ScanLines(st: Option<Scan>, lines: seq<string>): Option<Scan>
    decreases lines
  {
    if lines == [] || st.None? then st else ScanLines(ScanLine(st.value, lines[0]), lines[1..])
  }

  const START := Scan(Outside, 0)

  /** The configs the panel takes for its own. */
  predicate IsOwnedConfig(config: string, name: string) {
    && OwnershipMarker(name) + "\n" <= config
    && '\r' !in config && '\0' !in config
    && var end := ScanLines(Some(START), Split(config, '\n')[1..]);
       end.Some? && end.value.interfaces == 1
  }

  method ValidOwnedConfig(config: string, name: string) returns (ok: bool)
    ensures ok == IsOwnedConfig(config, name)
  {
    if !(OwnershipMarker(name) + "\n" <= config) || '\r' in config || '\0' in config {
      return false;
    }
    var section, interfaceCount := Outside, 0;
    var lines := Split(config, '\n')[1..];
    for k := 0 to |lines|
      invariant ScanLines(Some(START), lines) == ScanLines(Some(Scan(section, interfaceCount)), lines[k..])
    {
      var line := lines[k];
      assert lines[k..][1..] == lines[k + 1..];
      if line == "" {
        continue;
      } else if "#" <= line {
        if section != InPeer {
          return false;
        }
        continue;
      } else if line == "[Interface]" {
        interfaceCount := interfaceCount + 1;
        if interfaceCount != 1 || section != Outside {
          return false;
        }
        section := InInterface;
        continue;
      } else if line == "[Peer]" {
        if section == Outside {
          return false;
        }
        section := InPeer;
        continue;
      }
      var cut := Cut(line, " = ");
      if cut.None? || cut.value.1 == "" || !AllowedKey(section, cut.value.0) {
        return false;
      }
    }
    ok := interfaceCount == 1;
  }

  lemma {:induction false} ScanAppend(st: Option<Scan>, a: seq<string>, b: seq<string>)
    ensures ScanLines(st, a + b) == ScanLines(ScanLines(st, a), b)
    decreases a
  {
    if a == [] {
      assert a + b == b;
    } else if st.Some? {
      ScanAppend(ScanLine(st.value, a[0]), a[1..], b);
      assert (a + b)[1..] == a[1..] + b;
    }
  }

  // ---------------------------------------------------------------------------
  // The private key a config names
  // ---------------------------------------------------------------------------

  const KEY_PREFIX := "PrivateKey = "

  predicate NoKey(line: string) { !(KEY_PREFIX <= line) }

  predicate NoKeys(lines: seq<string>) { forall l :: l in lines ==> NoKey(l) }

  /** The scan of configInterfacePublicKey; None once a second key is met. */
  function KeyScan(seen: Option<string>, lines: seq<string>): Option<string>
    decreases lines
  {
    if lines == [] || seen.None? then seen
    else if NoKey(lines[0]) then KeyScan(seen, lines[1..])
    else if seen.value != "" then None
    else KeyScan(Some(lines[0][|KEY_PREFIX|..]), lines[1..])
  }

  function ConfigPrivateKey(config: string): Option<string> { KeyScan(Some(""), Split(config, '\n')) }

  /** configInterfacePublicKey. */
  function ConfigPublicKey(derive: Derive, config: string): Option<string> {
    match ConfigPrivateKey(config)
    case None => None
    case Some(key) => derive(key)
  }

  method ConfigInterfacePublicKey(derive: Derive, config: string) returns (key: Option<string>)
    ensures key == ConfigPublicKey(derive, config)
  {
    var lines := Split(config, '\n');
    var privateKey := "";
    for k := 0 to |lines|
      invariant ConfigPrivateKey(config) == KeyScan(Some(privateKey), lines[k..])
    {
      assert lines[k..][1..] == lines[k + 1..];
      if NoKey(lines[k]) {
        continue;
      }
      if privateKey != "" {
        return None;
      }
      privateKey := lines[k][|KEY_PREFIX|..];
    }
    key := derive(privateKey);
  }

  lemma {:induction false} KeyScanAppend(seen: Option<string>, a: seq<string>, b: seq<string>)
    ensures KeyScan(seen, a + b) == KeyScan(KeyScan(seen, a), b)
    decreases a
  {
    if a == [] {
      assert a + b == b;
    } else if seen.Some? {
      assert (a + b)[1..] == a[1..] + b;
      if NoKey(a[0]) {
        KeyScanAppend(seen, a[1..], b);
      } else if seen.value == "" {
        KeyScanAppend(Some(a[0][|KEY_PREFIX|..]), a[1..], b);
      }
    }
  }

  lemma {:induction false} KeyScanSkips(seen: Option<string>, lines: seq<string>)
    requires NoKeys(lines)
    ensures KeyScan(seen, lines) == seen
  {
    if lines != [] && seen.Some? {
      assert NoKey(lines[0]);
      KeyScanSkips(seen, lines[1..]);
    }
  }

  /** A line that starts like a private key is one, whoever scans it. */
  lemma KeyPrefixCuts(line: string)
    requires KEY_PREFIX <= line
    ensures Cut(line, " = ") == Some(("PrivateKey", line[|KEY_PREFIX|..]))
    ensures line != "" && line[0] == 'P' && line != "[Interface]" && line != "[Peer]"
  {
    assert line == "PrivateKey" + " = " + line[|KEY_PREFIX|..];
    CutAt("PrivateKey", " = ", line[|KEY_PREFIX|..]);
  }

  /** Nothing below the first peer header of an accepted config names a private key. */
  lemma {:induction false} PeersNameNoKey(st: Scan, lines: seq<string>)
    requires st.section == InPeer && ScanLines(Some(st), lines).Some?
    ensures NoKeys(lines)
  {
    if lines != [] {
      if KEY_PREFIX <= lines[0] {
        KeyPrefixCuts(lines[0]);
        assert false;
      }
      ScanDead(lines[1..]);
      PeersNameNoKey(st, lines[1..]);
    }
  }

  /** A line that starts like a peer header is refused or is the header. */
  lemma BracketOpensPeer(st: Scan, line: string)
    requires "[Peer]" <= line && st.interfaces == (if st.section == Outside then 0 else 1)
    ensures ScanLine(st, line).Some? ==> ScanLine(st, line) == Some(Scan(InPeer, 1))
    ensures NoKey(line)
  {
    assert line[0] == "[Peer]"[0] == '[' && line[1] == "[Peer]"[1] == 'P';
    assert "[Interface]"[1] == 'I' && KEY_PREFIX[0] == 'P';
    var cut := Cut(line, " = ");
    if cut.Some? {
      AllowedKeysArePlain(st.section, cut.value.0);
      assert cut.value.0 == "" || cut.value.0[0] == line[0];
    }
  }

  lemma AllowedKeysArePlain(section: Section, key: string)
    ensures AllowedKey(section, key) ==> PlainKey(key)
  {
    if AllowedKey(section, key) {
      KeysArePlain(key);
    }
  }

  lemma {:induction false} ScanCounts(st: Scan, lines: seq<string>)
    requires ScanLines(Some(st), lines).Some?
    requires st.interfaces == (if st.section == Outside then 0 else 1)
    ensures var e := ScanLines(Some(st), lines).value; e.interfaces == (if e.section == Outside then 0 else 1)
    decreases lines
  {
    if lines != [] {
      ScanDead(lines[1..]);
      ScanCounts(ScanLine(st, lines[0]).value, lines[1..]);
    }
  }

  lemma {:induction false} ScanDead(lines: seq<string>)
    ensures ScanLines(None, lines) == None
  {
  }

  /** The private key of an accepted config is written in its interface section. */
  lemma KeyIsInSection(config: string, name: string)
    requires IsOwnedConfig(config, name)
    ensures ConfigPrivateKey(config) == ConfigPrivateKey(InterfaceSection(config))
  {
    var i := Index(config, "\n[Peer]");
    if i >= 0 {
      var a, b := config[..i], config[i + 1..];
      assert config[i..][0] == '\n' && b == config[i..][1..];
      assert "[Peer]" == "\n[Peer]"[1..];
      assert "[Peer]" <= b;
      assert config == a + ['\n'] + b;
      SplitConcat(a, '\n', b);
      var above, below := Split(a, '\n'), Split(b, '\n');
      assert Split(config, '\n')[1..] == above[1..] + below;
      ScanAppend(Some(START), above[1..], below);
      FirstLine(b, "[Peer]");
      var mid := ScanLines(Some(START), above[1..]);
      ScanDead(below);
      ScanCounts(START, above[1..]);
      PeerHeaderFollows(mid.value, below);
      KeyScanAppend(Some(""), above, below);
      KeyScanSkips(KeyScan(Some(""), above), below);
    }
  }

  /** The first line of a text keeps any one-line prefix the text has. */
  lemma {:induction false} FirstLine(text: string, prefix: string)
    requires prefix <= text && OneLine(prefix)
    ensures prefix <= Split(text, '\n')[0]
  {
    if prefix != "" {
      FirstLine(text[1..], prefix[1..]);
      assert text[0] == prefix[0];
    }
  }

  lemma PeerHeaderFollows(mid: Scan, below: seq<string>)
    requires mid.interfaces == (if mid.section == Outside then 0 else 1)
    requires below != [] && "[Peer]" <= below[0] && ScanLines(Some(mid), below).Some?
    ensures NoKeys(below)
  {
    ScanDead(below[1..]);
    BracketOpensPeer(mid, below[0]);
    PeersNameNoKey(ScanLine(mid, below[0]).value, below[1..]);
  }

  /** Two accepted configs with the same interface section name the same key: what lets
      adoption and an in-place sync replace the file under a live link. */
  lemma SameSectionSameKey(a: string, b: string, name: string)
    requires IsOwnedConfig(a, name) && IsOwnedConfig(b, name) && InterfaceSection(a) == InterfaceSection(b)
    ensures ConfigPrivateKey(a) == ConfigPrivateKey(b)
  {
    KeyIsInSection(a, name);
    KeyIsInSection(b, name);
  }

  // ---------------------------------------------------------------------------
  // What Render prints is recognised
  // ---------------------------------------------------------------------------

  lemma KeyLineCuts(key: string, value: string)
    requires PlainKey(key)
    ensures Cut(KeyLine(key, value), " = ") == Some((key, value))
    ensures var l := KeyLine(key, value); l != "" && !("#" <= l) && l != "[Interface]" && l != "[Peer]"
  {
    CutAt(key, " = ", value);
    assert KeyLine(key, value)[0] == key[0];
  }

  lemma InterfaceLineScans(line: string)
    requires InterfaceLine(line)
    ensures ScanLine(Scan(InInterface, 1), line) == Some(Scan(InInterface, 1))
  {
    var key, value :| InterfaceLineOf(line, key, value);
    KeysArePlain(key);
    KeyLineCuts(key, value);
  }

  lemma {:induction false} InterfaceLinesScan(lines: seq<string>)
    requires AllInterfaceLines(lines)
    ensures ScanLines(Some(Scan(InInterface, 1)), lines) == Some(Scan(InInterface, 1))
  {
    if lines != [] {
      InterfaceLineScans(lines[0]);
      InterfaceLinesScan(lines[1..]);
    }
  }

  /** The one thing Render prints that the recogniser refuses: an empty AllowedIPs value. */
  predicate NamesAddresses(p: Peer) { Rendered(p) ==> Join(p.allowedIPs, ", ") != "" }

  lemma PeerKeyScans(key: string, value: string)
    requires key in PEER_KEYS
    ensures ScanLine(Scan(InPeer, 1), KeyLine(key, value)) == if value == "" then None else Some(Scan(InPeer, 1))
  {
    KeysArePlain(key);
    KeyLineCuts(key, value);
  }

  lemma ScanStep(st: Scan, line: string, rest: seq<string>)
    ensures ScanLines(Some(st), [line] + rest) == ScanLines(ScanLine(st, line), rest)
  {
    assert ([line] + rest)[1..] == rest;
  }

  lemma OptionalScans(key: string, value: string, rest: seq<string>)
    requires key in PEER_KEYS
    ensures ScanLines(Some(Scan(InPeer, 1)), OptionalLine(key, value) + rest) == ScanLines(Some(Scan(InPeer, 1)), rest)
  {
    if value == "" {
      assert OptionalLine(key, value) + rest == rest;
    } else {
      PeerKeyScans(key, value);
      ScanStep(Scan(InPeer, 1), KeyLine(key, value), rest);
    }
  }

  lemma CommentScans(email: string, rest: seq<string>)
    ensures ScanLines(Some(Scan(InPeer, 1)), (if email == "" then [] else ["# " + email]) + rest)
         == ScanLines(Some(Scan(InPeer, 1)), rest)
  {
    if email == "" {
      assert [] + rest == rest;
    } else {
      ScanStep(Scan(InPeer, 1), "# " + email, rest);
    }
  }

  lemma KeyLinesScan(p: Peer)
    requires Rendered(p)
    ensures ScanLines(Some(Scan(InPeer, 1)), PeerKeyLines(p)) ==
      if NamesAddresses(p) then Some(Scan(InPeer, 1)) else None
  {
    var last := [KeyLine("AllowedIPs", Join(p.allowedIPs, ", "))];
    assert PeerKeyLines(p) ==
      [KeyLine("PublicKey", p.publicKey)] + (OptionalLine("PresharedKey", p.presharedKey) + last);
    PeerKeyScans("PublicKey", p.publicKey);
    ScanStep(Scan(InPeer, 1), KeyLine("PublicKey", p.publicKey), OptionalLine("PresharedKey", p.presharedKey) + last);
    OptionalScans("PresharedKey", p.presharedKey, last);
    PeerKeyScans("AllowedIPs", Join(p.allowedIPs, ", "));
    ScanStep(Scan(InPeer, 1), last[0], []);
    assert last == [last[0]] + [];
  }

  lemma PeerScans(st: Scan, p: Peer)
    requires st.section != Outside && st.interfaces == 1 && Rendered(p)
    ensures ScanLines(Some(st), PeerLines(p)) == if NamesAddresses(p) then Some(Scan(InPeer, 1)) else None
  {
    var comment := (if p.email == "" then [] else ["# " + p.email]) + PeerKeyLines(p);
    assert PeerLines(p) == [""] + (["[Peer]"] + comment);
    assert "[Peer]"[0] == '[' && |"[Interface]"| == 11;
    assert ScanLine(st, "") == Some(st) && ScanLine(st, "[Peer]") == Some(Scan(InPeer, 1));
    ScanStep(st, "", ["[Peer]"] + comment);
    ScanStep(st, "[Peer]", comment);
    CommentScans(p.email, PeerKeyLines(p));
    KeyLinesScan(p);
  }

  lemma {:induction false} PeersScan(st: Scan, peers: seq<Peer>)
    requires st.section != Outside && st.interfaces == 1
    ensures var e := ScanLines(Some(st), AllPeerLines(peers));
            if forall p :: p in peers ==> NamesAddresses(p)
            then e.Some? && e.value.section != Outside && e.value.interfaces == 1
            else e == None
  {
    if peers != [] {
      var n := |peers| - 1;
      PeersScan(st, peers[..n]);
      ScanAppend(Some(st), AllPeerLines(peers[..n]), PeerLines(peers[n]));
      assert peers == peers[..n] + [peers[n]];
      var mid := ScanLines(Some(st), AllPeerLines(peers[..n]));
      if mid.None? {
        ScanDead(PeerLines(peers[n]));
      } else if Rendered(peers[n]) {
        PeerScans(mid.value, peers[n]);
      }
    }
  }

  lemma CleanConcat(a: string, b: string)
    requires CleanValue(a) && CleanValue(b)
    ensures CleanValue(a + b)
  {
  }

  lemma CleanKeyLine(key: string, value: string)
    requires CleanValue(key) && CleanValue(value)
    ensures CleanLine(KeyLine(key, value))
  {
    assert CleanValue(" = ");
  }

  lemma CleanPeerLines(p: Peer)
    requires forall v :: v in PeerValues(p) ==> CleanValue(v)
    ensures forall l :: l in PeerLines(p) ==> CleanLine(l)
  {
    assert PeerValues(p)[0] == p.email && PeerValues(p)[1] == p.publicKey && PeerValues(p)[2] == p.presharedKey;
    forall a | a in p.allowedIPs ensures CleanValue(a) {
      assert a in PeerValues(p);
    }
    CleanJoin(p.allowedIPs);
    var join := Join(p.allowedIPs, ", ");
    CleanKeyLine("PublicKey", p.publicKey);
    CleanKeyLine("PresharedKey", p.presharedKey);
    CleanKeyLine("AllowedIPs", join);
    assert forall l :: l in PeerKeyLines(p) ==> CleanLine(l);
    assert CleanLine("") && CleanLine("[Peer]") && CleanValue("# ");
    CleanConcat("# ", p.email);
  }

  lemma {:induction false} CleanAllPeerLines(peers: seq<Peer>)
    requires forall p :: p in peers ==> forall v :: v in PeerValues(p) ==> CleanValue(v)
    ensures forall l :: l in AllPeerLines(peers) ==> CleanLine(l)
  {
    if peers != [] {
      CleanAllPeerLines(peers[..|peers| - 1]);
      CleanPeerLines(peers[|peers| - 1]);
    }
  }

  lemma {:induction false} CleanUnlines(lines: seq<string>)
    requires forall l :: l in lines ==> CleanLine(l)
    ensures AllOneLine(lines)
    ensures '\r' !in Unlines(lines) && '\0' !in Unlines(lines)
  {
    if lines != [] {
      CleanUnlines(lines[1..]);
      assert CleanLine(lines[0]);
    }
  }

  lemma RenderedLinesClean(inst: Instance)
    requires Renderable(inst)
    ensures forall l :: l in RenderLines(inst) ==> CleanLine(l)
  {
    HeadHasNoPeer(inst);
    CleanAllPeerLines(inst.peers);
  }

  lemma ScanOfInterface(section: seq<string>, rest: seq<string>)
    requires AllInterfaceLines(section)
    ensures ScanLines(Some(START), ["[Interface]"] + section + rest) == ScanLines(Some(Scan(InInterface, 1)), rest)
  {
    assert "[Interface]"[0] == '[' && |"[Interface]"| == 11;
    assert ScanLine(START, "[Interface]") == Some(Scan(InInterface, 1));
    ScanStep(START, "[Interface]", section + rest);
    assert ["[Interface]"] + section + rest == ["[Interface]"] + (section + rest);
    ScanAppend(Some(Scan(InInterface, 1)), section, rest);
    InterfaceLinesScan(section);
  }

  lemma ScanOfRendered(section: seq<string>, peers: seq<Peer>)
    requires AllInterfaceLines(section)
    ensures var e := ScanLines(Some(START), (["[Interface]"] + section + AllPeerLines(peers)) + [""]);
            (e.Some? && e.value.interfaces == 1) <==> forall p :: p in peers ==> NamesAddresses(p)
  {
    ScanAppend(Some(START), ["[Interface]"] + section + AllPeerLines(peers), [""]);
    ScanOfInterface(section, AllPeerLines(peers));
    PeersScan(Scan(InInterface, 1), peers);
    ScanBlank(ScanLines(Some(Scan(InInterface, 1)), AllPeerLines(peers)));
  }

  lemma ScanBlank(st: Option<Scan>)
    ensures ScanLines(st, [""]) == st
  {
    if st.Some? {
      ScanStep(st.value, "", []);
      assert [""] + [] == [""];
    }
  }

  /** Printer and recogniser agree: an accepted instance's config is recognised as the
      panel's own exactly when every printed peer names an address. */
  lemma RenderIsOwned(inst: Instance)
    requires Renderable(inst)
    ensures IsOwnedConfig(Unlines(RenderLines(inst)), OwnedInterfaceName(inst.id))
       <==> forall p :: p in inst.peers ==> NamesAddresses(p)
  {
    var lines, marker := RenderLines(inst), OwnershipMarker(OwnedInterfaceName(inst.id));
    RenderedLinesClean(inst);
    CleanUnlines(lines);
    SplitUnlines(lines);
    HeadIsInterface(inst);
    MarkerFirst(marker, SectionLines(inst), inst.peers);
    ScanOfRendered(SectionLines(inst), inst.peers);
  }

  lemma MarkerFirst(marker: string, section: seq<string>, peers: seq<Peer>)
    ensures var lines := [marker, "[Interface]"] + section + AllPeerLines(peers);
            && marker + "\n" <= Unlines(lines)
            && (lines + [""])[1..] == (["[Interface]"] + section + AllPeerLines(peers)) + [""]
  {
  }

  lemma {:induction false} KeyScanOfPeers(seen: Option<string>, peers: seq<Peer>)
    ensures KeyScan(seen, AllPeerLines(peers)) == seen
  {
    if peers != [] {
      var n := |peers| - 1;
      KeyScanOfPeers(seen, peers[..n]);
      KeyScanAppend(seen, AllPeerLines(peers[..n]), PeerLines(peers[n]));
      PeerLinesNoKey(peers[n]);
      KeyScanSkips(seen, PeerLines(peers[n]));
    }
  }

  lemma PeerLinesNoKey(p: Peer)
    ensures NoKeys(PeerLines(p))
  {
    assert KEY_PREFIX[1] == 'r';
    assert KeyLine("PublicKey", p.publicKey)[1] == "PublicKey"[1] == 'u';
    assert KEY_PREFIX[2] == 'i' && KeyLine("PresharedKey", p.presharedKey)[2] == "PresharedKey"[2] == 'e';
    assert KeyLine("AllowedIPs", Join(p.allowedIPs, ", "))[0] == 'A';
  }

  lemma SettingsHoldNoKey(lines: seq<string>)
    requires AllSettingLines(lines)
    ensures NoKeys(lines)
  {
    forall line | line in lines ensures NoKey(line) {
      var key, value :| InterfaceLineOf(line, key, value) && key != "PrivateKey";
      KeysArePlain(key);
      KeyLineCuts(key, value);
      if KEY_PREFIX <= line {
        KeyPrefixCuts(line);
        assert false;
      }
    }
  }

  /** The config of an accepted instance names exactly one private key, the instance's. */
  lemma RenderNamesKey(inst: Instance)
    requires Renderable(inst)
    ensures ConfigPrivateKey(Unlines(RenderLines(inst))) == Some(inst.privateKey)
  {
    var o := inst.obfuscation;
    RenderedLinesClean(inst);
    CleanUnlines(RenderLines(inst));
    SplitUnlines(RenderLines(inst));
    SettingsAreSettings(inst);
    SettingsHoldNoKey(SettingLines(inst));
    KeyOfLines(OwnershipMarker(OwnedInterfaceName(inst.id)), inst.privateKey, SettingLines(inst), inst.peers);
  }

  lemma KeyOfLines(marker: string, key: string, others: seq<string>, peers: seq<Peer>)
    requires "#" <= marker && NoKeys(others)
    ensures
      var lines := [marker, "[Interface]"] + ([KeyLine("PrivateKey", key)] + others) + AllPeerLines(peers) + [""];
      KeyScan(Some(""), lines) == Some(key)
  {
    var line := KeyLine("PrivateKey", key);
    assert line == KEY_PREFIX + key;
    assert line[|KEY_PREFIX|..] == key;
    assert KEY_PREFIX[0] == 'P';
    var tail := others + AllPeerLines(peers) + [""];
    assert [marker, "[Interface]"] + ([line] + others) + AllPeerLines(peers) + [""] ==
      [marker, "[Interface]"] + ([line] + tail);
    KeyScanAppend(Some(""), [marker, "[Interface]"], [line] + tail);
    KeyScanSkips(Some(""), [marker, "[Interface]"]);
    assert ([line] + tail)[1..] == tail;
    KeyScanAppend(Some(key), others + AllPeerLines(peers), [""]);
    KeyScanAppend(Some(key), others, AllPeerLines(peers));
    KeyScanSkips(Some(key), others);
    KeyScanOfPeers(Some(key), peers);
  }
}
