/** The form of the configs the panel takes for its own: what the recogniser accepts, said without
    its scan. */
module KernelGrammar {
  import opened Text
  import opened Amnezia
  import opened KernelConfig
  import opened KernelOwnership
  import opened KernelReading

  /** A line `key = value` of one of the keys, with a value. */
  ghost predicate Sets(line: string, keys: set<string>) {
    exists key, value :: SetsTo(line, keys, key, value)
  }

  predicate SetsTo(line: string, keys: set<string>, key: string, value: string) {
    key in keys && value != "" && line == key + " = " + value
  }

  ghost predicate InterfaceBody(line: string) { line == "" || Sets(line, INTERFACE_KEYS) }

  ghost predicate PeerBody(line: string) { line == "" || "#" <= line || line == "[Peer]" || Sets(line, PEER_KEYS) }

  /** Where the line first stands, or the end. */
  function First(lines: seq<string>, line: string): (i: nat)
    ensures i <= |lines| && (i < |lines| ==> lines[i] == line) && (forall j :: 0 <= j < i ==> lines[j] != line)
  {
    if lines == [] || lines[0] == line then 0 else 1 + First(lines[1..], line)
  }

  ghost predicate PeersForm(lines: seq<string>) { forall j :: 0 <= j < |lines| ==> PeerBody(lines[j]) }

  /** Settings of the interface, and from the first peer header on only what peers have. */
  ghost predicate InterfaceForm(lines: seq<string>) {
    var m := First(lines, "[Peer]");
    (forall j :: 0 <= j < m ==> InterfaceBody(lines[j])) && (forall j :: m <= j < |lines| ==> PeerBody(lines[j]))
  }

  /** Blank lines, one interface header, and the interface. */
  ghost predicate BodyForm(lines: seq<string>) {
    var i := First(lines, "[Interface]");
    i < |lines| && (forall j :: 0 <= j < i ==> lines[j] == "") && InterfaceForm(lines[i + 1..])
  }

  /** The marker, and below it one interface and its peers. */
  ghost predicate OwnedForm(config: string, name: string) {
    var lines := Split(config, '\n');
    '\r' !in config && '\0' !in config && lines[0] == OwnershipMarker(name) && BodyForm(lines[1..])
  }

  lemma CutJoins(line: string, keys: set<string>)
    requires forall key :: key in keys ==> PlainKey(key)
    ensures Sets(line, keys) <==> var cut := Cut(line, " = "); cut.Some? && cut.value.0 in keys && cut.value.1 != ""
    ensures Sets(line, keys) ==> line != "" && !("#" <= line) && line != "[Interface]" && line != "[Peer]"
  {
    if Sets(line, keys) {
      var key, value :| SetsTo(line, keys, key, value);
      KeyLineCuts(key, value);
    }
    var cut := Cut(line, " = ");
    if cut.Some? && cut.value.0 in keys && cut.value.1 != "" {
      var i := Index(line, " = ");
      assert line == line[..i] + " = " + line[i + 3..];
      assert SetsTo(line, keys, cut.value.0, cut.value.1);
    }
  }

  lemma LinesScan(section: Section, line: string)
    ensures section == InInterface ==>
      (ScanLine(Scan(section, 1), line).Some? <==> InterfaceBody(line) || line == "[Peer]")
    ensures section == InPeer ==> (ScanLine(Scan(section, 1), line).Some? <==> PeerBody(line))
    ensures section != Outside && ScanLine(Scan(section, 1), line).Some? ==>
      ScanLine(Scan(section, 1), line).value == Scan(if line == "[Peer]" then InPeer else section, 1)
  {
    forall key | key in INTERFACE_KEYS || key in PEER_KEYS ensures PlainKey(key) {
      KeysArePlain(key);
    }
    CutJoins(line, INTERFACE_KEYS);
    CutJoins(line, PEER_KEYS);
    HeadersDiffer();
  }

  lemma HeadersDiffer()
    ensures "[Peer]" != "[Interface]" && !("#" <= "[Peer]") && !("#" <= "[Interface]")
  {
    assert "[Peer]"[0] == '[' && "[Interface]"[0] == '[' && "#"[0] == '#';
    assert "[Peer]"[1] == 'P' && "[Interface]"[1] == 'I';
  }

  lemma {:induction false} PeersScanIff(lines: seq<string>)
    ensures ScanLines(Some(Scan(InPeer, 1)), lines).Some? <==> PeersForm(lines)
    ensures ScanLines(Some(Scan(InPeer, 1)), lines).Some? ==>
      ScanLines(Some(Scan(InPeer, 1)), lines).value.interfaces == 1
  {
    if lines != [] {
      LinesScan(InPeer, lines[0]);
      PeersScanIff(lines[1..]);
      ScanDead(lines[1..]);
    }
  }

  lemma {:induction false} InterfaceScanIff(lines: seq<string>)
    ensures ScanLines(Some(Scan(InInterface, 1)), lines).Some? <==> InterfaceForm(lines)
    ensures ScanLines(Some(Scan(InInterface, 1)), lines).Some? ==>
      ScanLines(Some(Scan(InInterface, 1)), lines).value.interfaces == 1
  {
    if lines != [] {
      var rest := lines[1..];
      LinesScan(InInterface, lines[0]);
      InterfaceScanIff(rest);
      PeersScanIff(rest);
      ScanDead(rest);
      FormCons(lines);
    }
  }

  lemma FormCons(lines: seq<string>)
    requires lines != []
    ensures InterfaceForm(lines) <==>
      if lines[0] == "[Peer]" then PeersForm(lines[1..]) else InterfaceBody(lines[0]) && InterfaceForm(lines[1..])
  {
    var rest := lines[1..];
    if lines[0] == "[Peer]" {
      assert PeerBody(lines[0]);
      assert forall j :: 0 < j < |lines| ==> lines[j] == rest[j - 1];
      assert forall j :: 0 <= j < |rest| ==> rest[j] == lines[j + 1];
    } else {
      assert First(lines, "[Peer]") == 1 + First(rest, "[Peer]");
      assert forall j :: 0 < j < |lines| ==> lines[j] == rest[j - 1];
      assert forall j :: 0 <= j < |rest| ==> rest[j] == lines[j + 1];
    }
  }

  lemma {:induction false} BodyScanIff(lines: seq<string>)
    ensures var end := ScanLines(Some(START), lines);
      (end.Some? && end.value.interfaces == 1) <==> BodyForm(lines)
  {
    if lines != [] {
      var rest := lines[1..];
      BodyScanIff(rest);
      InterfaceScanIff(rest);
      ScanDead(rest);
      BodyCons(lines);
      StartScans(lines[0]);
    }
  }

  lemma StartScans(line: string)
    ensures ScanLine(START, line) ==
      if line == "" then Some(START) else if line == "[Interface]" then Some(Scan(InInterface, 1)) else None
  {
    HeadersDiffer();
  }

  lemma BodyCons(lines: seq<string>)
    requires lines != []
    ensures BodyForm(lines) <==>
      if lines[0] == "[Interface]" then InterfaceForm(lines[1..]) else lines[0] == "" && BodyForm(lines[1..])
  {
    var rest := lines[1..];
    if lines[0] != "[Interface]" {
      var i := First(rest, "[Interface]");
      assert First(lines, "[Interface]") == 1 + i;
      assert forall j :: 0 < j < |lines| ==> lines[j] == rest[j - 1];
      assert forall j :: 0 <= j < |rest| ==> rest[j] == lines[j + 1];
      assert i < |rest| ==> lines[i + 2..] == rest[i + 1..];
    }
  }

  lemma MarkerIsFirstLine(config: string, marker: string)
    requires OneLine(marker)
    ensures marker + "\n" <= config <==> Split(config, '\n')[0] == marker && |Split(config, '\n')| > 1
  {
    var lines := Split(config, '\n');
    if marker + "\n" <= config {
      var rest := config[|marker| + 1..];
      assert config == marker + ['\n'] + rest;
      SplitAfter(marker, '\n', rest);
    }
    if lines[0] == marker && |lines| > 1 {
      JoinSplit(config, '\n');
      assert config == marker + ['\n'] + Join(lines[1..], ['\n']);
    }
  }

  /** The recogniser accepts exactly the configs of this form. */
  lemma OwnedIff(config: string, name: string)
    requires OneLine(name)
    ensures IsOwnedConfig(config, name) <==> OwnedForm(config, name)
  {
    MarkerIsFirstLine(config, OwnershipMarker(name));
    BodyScanIff(Split(config, '\n')[1..]);
  }

  /** An instance with every setting there is. */
  predicate Full(inst: Instance) {
    var o := inst.obfuscation;
    && o.s3 > 0 && o.s4 > 0 && o.randomTrailers && o.disableCookies && (forall s :: s in o.Signatures() ==> s != "")
    && TrimSpace(o.headerProtectionKey) != "" && TrimSpace(o.contentPaddingAddition) != ""
    && TrimSpace(o.rekeyAfterTime) != "" && TrimSpace(o.rekeyTimeout) != "" && TrimSpace(o.rejectAfterTime) != ""
    && TrimSpace(o.keepaliveTimeout) != "" && TrimSpace(o.maxHandshakeAttempts) != ""
  }

  /** A reader that finds each of these finds every allowed key. */
  lemma EveryKey(get: string -> bool, key: string)
    requires get("PrivateKey") && get("ListenPort") && get("RandomTrailers") && get("DisableCookies")
    requires get("Jc") && get("Jmin") && get("Jmax") && get("S1") && get("S2") && get("S3") && get("S4")
    requires get("H1") && get("H2") && get("H3") && get("H4")
    requires get("I1") && get("I2") && get("I3") && get("I4") && get("I5")
    requires get("HeaderProtectionKey") && get("ContentPaddingAddition") && get("RekeyAfterTime")
    requires get("RekeyTimeout") && get("RejectAfterTime") && get("KeepaliveTimeout") && get("MaxHandshakeAttempts")
    requires key in INTERFACE_KEYS
    ensures get(key)
  {
  }

  /** No key is allowed that Render does not print: a full instance's config has them all. */
  lemma AllowedIsPrinted(inst: Instance, key: string)
    requires Renderable(inst) && Full(inst) && key in INTERFACE_KEYS
    ensures Setting(Unlines(RenderLines(inst)), key).Some?
  {
    SettingsReadBack(inst);
    AllFound(Unlines(RenderLines(inst)), inst, key);
  }

  lemma AllFound(conf: string, inst: Instance, key: string)
    requires SaysSettings(conf, inst) && Full(inst) && key in INTERFACE_KEYS
    ensures Setting(conf, key).Some?
  {
    var o := inst.obfuscation;
    var s := o.Signatures();
    assert s[0] in s && s[1] in s && s[2] in s && s[3] in s && s[4] in s;
    EveryKey(k => Setting(conf, k).Some?, key);
  }

  lemma PeerKeyIsPrinted(p: Peer, key: string)
    requires Rendered(p) && p.presharedKey != "" && key in PEER_KEYS
    ensures exists value :: KeyLine(key, value) in PeerLines(p)
  {
    var lines := PeerKeyLines(p);
    assert lines[0] == KeyLine("PublicKey", p.publicKey) && lines[1] == KeyLine("PresharedKey", p.presharedKey);
    assert lines[2] == KeyLine("AllowedIPs", Join(p.allowedIPs, ", "));
    assert lines[0] in PeerLines(p) && lines[1] in PeerLines(p) && lines[2] in PeerLines(p);
  }
}
