/** What `awg setconf` reads in a printed config. The reader knows lines, keys and peer headers and
    nothing of the printer; every setting and every peer comes back as the one it was printed from. */
module KernelReading {
  import opened Text
  import opened Amnezia
  import opened KernelConfig
  import opened KernelOwnership
  import opened Reading

  // ---------------------------------------------------------------------------
  // The reader
  // ---------------------------------------------------------------------------

  const SEP := " = "

  /** The lines above the next peer. */
  function AbovePeer(lines: seq<string>): seq<string> {
    if lines == [] || lines[0] == "[Peer]" then [] else [lines[0]] + AbovePeer(lines[1..])
  }

  /** A setting of the interface. */
  function Setting(conf: string, key: string): Option<string> { ValueIn(AbovePeer(Split(conf, '\n')), SEP, key) }

  /** What a peer's block says. */
  datatype Said = Said(publicKey: Option<string>, presharedKey: Option<string>, allowedIPs: Option<string>)

  function BlockOf(lines: seq<string>): Said {
    Said(ValueIn(lines, SEP, "PublicKey"), ValueIn(lines, SEP, "PresharedKey"), ValueIn(lines, SEP, "AllowedIPs"))
  }

  function Blocks(lines: seq<string>): seq<Said> {
    if lines == [] then []
    else if lines[0] == "[Peer]" then [BlockOf(AbovePeer(lines[1..]))] + Blocks(lines[1..])
    else Blocks(lines[1..])
  }

  function PeersOf(conf: string): seq<Said> { Blocks(Split(conf, '\n')) }

  // ---------------------------------------------------------------------------
  // Lines and keys
  // ---------------------------------------------------------------------------

  lemma PlainEnds(key: string)
    requires PlainKey(key)
    ensures KeyFor(SEP, key)
  {
  }

  lemma KeySays(key: string, value: string, asked: string)
    requires PlainKey(key) && PlainKey(asked)
    ensures ValueIn([KeyLine(key, value)], SEP, asked) == One(key, Some(value), asked)
  {
    PlainEnds(key);
    PlainEnds(asked);
    LineSays(KeyLine(key, value), SEP, key, value, asked);
  }

  lemma OptionalSays(key: string, value: string, asked: string)
    requires PlainKey(key) && PlainKey(asked)
    ensures ValueIn(OptionalLine(key, value), SEP, asked) == One(key, IfAny(value), asked)
  {
    KeySays(key, value, asked);
  }

  lemma SwitchSays(key: string, on: bool, asked: string)
    requires PlainKey(key) && PlainKey(asked)
    ensures ValueIn(if on then [KeyLine(key, "on")] else [], SEP, asked) == One(key, Switch(on), asked)
  {
    KeySays(key, "on", asked);
  }

  lemma {:induction false} AboveBoth(a: seq<string>, b: seq<string>)
    requires "[Peer]" !in a
    ensures AbovePeer(a + b) == a + AbovePeer(b)
  {
    if a == [] {
      assert a + b == b && a + AbovePeer(b) == AbovePeer(b);
    } else {
      AboveBoth(a[1..], b);
      assert (a + b)[0] == a[0] && (a + b)[1..] == a[1..] + b;
      Regrouped(a, AbovePeer(b));
    }
  }

  lemma Regrouped(a: seq<string>, c: seq<string>)
    requires a != []
    ensures [a[0]] + (a[1..] + c) == a + c
  {
  }

  lemma {:induction false} BlocksBoth(a: seq<string>, b: seq<string>)
    requires "[Peer]" !in a
    ensures Blocks(a + b) == Blocks(b)
  {
    if a == [] {
      assert a + b == b;
    } else {
      BlocksBoth(a[1..], b);
      assert (a + b)[0] == a[0] && (a + b)[1..] == a[1..] + b;
    }
  }

  // ---------------------------------------------------------------------------
  // The settings
  // ---------------------------------------------------------------------------

  /** A packet type, with its number where it is blank. */
  function TypeOr(v: string, n: string): string { if TrimSpace(v) == "" then n else TrimSpace(v) }

  function Switch(on: bool): Option<string> { if on then Some("on") else None }

  predicate SaysPaddings(conf: string, o: Obfuscation20) {
    && Setting(conf, "Jc") == Some(DecInt(o.jc)) && Setting(conf, "Jmin") == Some(DecInt(o.jmin))
    && Setting(conf, "Jmax") == Some(DecInt(o.jmax))
    && Setting(conf, "S1") == Some(DecInt(o.s1)) && Setting(conf, "S2") == Some(DecInt(o.s2))
    && Setting(conf, "S3") == Positive(o.s3) && Setting(conf, "S4") == Positive(o.s4)
  }

  predicate SaysTypes(conf: string, o: Obfuscation20) {
    && Setting(conf, "H1") == Some(TypeOr(o.h1, "1")) && Setting(conf, "H2") == Some(TypeOr(o.h2, "2"))
    && Setting(conf, "H3") == Some(TypeOr(o.h3, "3")) && Setting(conf, "H4") == Some(TypeOr(o.h4, "4"))
  }

  predicate SaysSignatures(conf: string, o: Obfuscation20) {
    && Setting(conf, "I1") == IfAny(o.i1) && Setting(conf, "I2") == IfAny(o.i2) && Setting(conf, "I3") == IfAny(o.i3)
    && Setting(conf, "I4") == IfAny(o.i4) && Setting(conf, "I5") == IfAny(o.i5)
  }

  predicate SaysTimers(conf: string, o: Obfuscation20) {
    && Setting(conf, "HeaderProtectionKey") == IfAny(TrimSpace(o.headerProtectionKey))
    && Setting(conf, "ContentPaddingAddition") == IfAny(TrimSpace(o.contentPaddingAddition))
    && Setting(conf, "RekeyAfterTime") == IfAny(TrimSpace(o.rekeyAfterTime))
    && Setting(conf, "RekeyTimeout") == IfAny(TrimSpace(o.rekeyTimeout))
    && Setting(conf, "RejectAfterTime") == IfAny(TrimSpace(o.rejectAfterTime))
    && Setting(conf, "KeepaliveTimeout") == IfAny(TrimSpace(o.keepaliveTimeout))
    && Setting(conf, "MaxHandshakeAttempts") == IfAny(TrimSpace(o.maxHandshakeAttempts))
  }

  /** Every key has the field it is named after. */
  predicate SaysSettings(conf: string, inst: Instance) {
    var o := inst.obfuscation;
    && Setting(conf, "PrivateKey") == Some(inst.privateKey)
    && Setting(conf, "ListenPort") == Some(DecInt(inst.listenPort))
    && SaysPaddings(conf, o) && SaysTypes(conf, o) && SaysSignatures(conf, o) && SaysTimers(conf, o)
    && Setting(conf, "RandomTrailers") == Switch(o.randomTrailers)
    && Setting(conf, "DisableCookies") == Switch(o.disableCookies)
  }

  /** The values of the padding keys, asked by key. */
  function PaddingValue(jc: string, jmin: string, jmax: string, s1: string, s2: string, s3: Option<string>,
                        s4: Option<string>, asked: string): Option<string> {
    if asked == "Jc" then Some(jc) else if asked == "Jmin" then Some(jmin) else if asked == "Jmax" then Some(jmax)
    else if asked == "S1" then Some(s1) else if asked == "S2" then Some(s2)
    else if asked == "S3" then s3 else if asked == "S4" then s4 else None
  }

  lemma PaddingValues(jc: string, jmin: string, jmax: string, s1: string, s2: string, s3: Option<string>,
                      s4: Option<string>)
    ensures PaddingValue(jc, jmin, jmax, s1, s2, s3, s4, "Jc") == Some(jc)
    ensures PaddingValue(jc, jmin, jmax, s1, s2, s3, s4, "Jmin") == Some(jmin)
    ensures PaddingValue(jc, jmin, jmax, s1, s2, s3, s4, "Jmax") == Some(jmax)
    ensures PaddingValue(jc, jmin, jmax, s1, s2, s3, s4, "S1") == Some(s1)
    ensures PaddingValue(jc, jmin, jmax, s1, s2, s3, s4, "S2") == Some(s2)
    ensures PaddingValue(jc, jmin, jmax, s1, s2, s3, s4, "S3") == s3
    ensures PaddingValue(jc, jmin, jmax, s1, s2, s3, s4, "S4") == s4
  {
  }

  function Positive(n: int): Option<string> { if n > 0 then Some(DecInt(n)) else None }

  function PaddingSaid(o: Obfuscation20, asked: string): Option<string> {
    PaddingValue(DecInt(o.jc), DecInt(o.jmin), DecInt(o.jmax), DecInt(o.s1), DecInt(o.s2), Positive(o.s3),
                 Positive(o.s4), asked)
  }

  lemma PaddingsSay(o: Obfuscation20, asked: string)
    requires PlainKey(asked)
    ensures ValueIn(PaddingLines(o), SEP, asked) == PaddingSaid(o, asked)
  {
    ShortKeysArePlain("Jc"); ShortKeysArePlain("Jmin"); ShortKeysArePlain("Jmax");
    ShortKeysArePlain("S1"); ShortKeysArePlain("S2"); ShortKeysArePlain("S3"); ShortKeysArePlain("S4");
    KeySays("Jc", DecInt(o.jc), asked); KeySays("Jmin", DecInt(o.jmin), asked);
    KeySays("Jmax", DecInt(o.jmax), asked); KeySays("S1", DecInt(o.s1), asked); KeySays("S2", DecInt(o.s2), asked);
    KeySays("S3", DecInt(o.s3), asked); KeySays("S4", DecInt(o.s4), asked);
    FourSay(KeyLine("Jc", DecInt(o.jc)), KeyLine("Jmin", DecInt(o.jmin)), KeyLine("Jmax", DecInt(o.jmax)),
            KeyLine("S1", DecInt(o.s1)), SEP, asked);
    FiveSay(KeyLine("Jc", DecInt(o.jc)), KeyLine("Jmin", DecInt(o.jmin)), KeyLine("Jmax", DecInt(o.jmax)),
            KeyLine("S1", DecInt(o.s1)), KeyLine("S2", DecInt(o.s2)), SEP, asked);
    ThreeParts([KeyLine("Jc", DecInt(o.jc)), KeyLine("Jmin", DecInt(o.jmin)), KeyLine("Jmax", DecInt(o.jmax)),
                KeyLine("S1", DecInt(o.s1)), KeyLine("S2", DecInt(o.s2))],
               if o.s3 > 0 then [KeyLine("S3", DecInt(o.s3))] else [],
               if o.s4 > 0 then [KeyLine("S4", DecInt(o.s4))] else [], SEP, asked);
  }

  function TypeValue(h1: string, h2: string, h3: string, h4: string, asked: string): Option<string> {
    if asked == "H1" then Some(h1) else if asked == "H2" then Some(h2) else if asked == "H3" then Some(h3)
    else if asked == "H4" then Some(h4) else None
  }

  lemma TypeValues(h1: string, h2: string, h3: string, h4: string)
    ensures TypeValue(h1, h2, h3, h4, "H1") == Some(h1) && TypeValue(h1, h2, h3, h4, "H2") == Some(h2)
    ensures TypeValue(h1, h2, h3, h4, "H3") == Some(h3) && TypeValue(h1, h2, h3, h4, "H4") == Some(h4)
  {
  }

  function TypeSaid(o: Obfuscation20, asked: string): Option<string> {
    TypeValue(TypeOr(o.h1, "1"), TypeOr(o.h2, "2"), TypeOr(o.h3, "3"), TypeOr(o.h4, "4"), asked)
  }

  lemma TypesSay(o: Obfuscation20, asked: string)
    requires PlainKey(asked)
    ensures ValueIn(HeaderLines(o), SEP, asked) == TypeSaid(o, asked)
  {
    ShortKeysArePlain("H1"); ShortKeysArePlain("H2"); ShortKeysArePlain("H3"); ShortKeysArePlain("H4");
    assert Dec(1) == "1" && Dec(2) == "2" && Dec(3) == "3" && Dec(4) == "4";
    var h1, h2 := HeaderOrDefault(o.h1, 1), HeaderOrDefault(o.h2, 2);
    var h3, h4 := HeaderOrDefault(o.h3, 3), HeaderOrDefault(o.h4, 4);
    KeySays("H1", h1, asked); KeySays("H2", h2, asked); KeySays("H3", h3, asked); KeySays("H4", h4, asked);
    FourSay(KeyLine("H1", h1), KeyLine("H2", h2), KeyLine("H3", h3), KeyLine("H4", h4), SEP, asked);
  }

  function SignatureSaid(o: Obfuscation20, asked: string): Option<string> {
    if asked == "I1" then IfAny(o.i1) else if asked == "I2" then IfAny(o.i2) else if asked == "I3" then IfAny(o.i3)
    else if asked == "I4" then IfAny(o.i4) else if asked == "I5" then IfAny(o.i5) else None
  }

  lemma SignaturesSay(o: Obfuscation20, asked: string)
    requires PlainKey(asked)
    ensures ValueIn(SignatureLines(o), SEP, asked) == SignatureSaid(o, asked)
  {
    ShortKeysArePlain("I1"); ShortKeysArePlain("I2"); ShortKeysArePlain("I3"); ShortKeysArePlain("I4");
    ShortKeysArePlain("I5");
    OptionalSays("I1", o.i1, asked); OptionalSays("I2", o.i2, asked); OptionalSays("I3", o.i3, asked);
    OptionalSays("I4", o.i4, asked); OptionalSays("I5", o.i5, asked);
    FiveParts(OptionalLine("I1", o.i1), OptionalLine("I2", o.i2), OptionalLine("I3", o.i3), OptionalLine("I4", o.i4),
              OptionalLine("I5", o.i5), SEP, asked);
  }

  /** The optional line of a trimmed setting. */
  function Trimmed(key: string, v: string): seq<string> { OptionalLine(key, TrimSpace(v)) }

  lemma TrimmedSays(key: string, v: string, asked: string)
    requires key in INTERFACE_KEYS && PlainKey(asked)
    ensures ValueIn(Trimmed(key, v), SEP, asked) == One(key, IfAny(TrimSpace(v)), asked)
  {
    KeysArePlain(key);
    OptionalSays(key, TrimSpace(v), asked);
  }

  function TimerSaid(o: Obfuscation20, asked: string): Option<string> {
    if asked == "HeaderProtectionKey" then IfAny(TrimSpace(o.headerProtectionKey))
    else if asked == "ContentPaddingAddition" then IfAny(TrimSpace(o.contentPaddingAddition))
    else if asked == "RekeyAfterTime" then IfAny(TrimSpace(o.rekeyAfterTime))
    else if asked == "RekeyTimeout" then IfAny(TrimSpace(o.rekeyTimeout))
    else if asked == "RejectAfterTime" then IfAny(TrimSpace(o.rejectAfterTime))
    else if asked == "KeepaliveTimeout" then IfAny(TrimSpace(o.keepaliveTimeout))
    else if asked == "MaxHandshakeAttempts" then IfAny(TrimSpace(o.maxHandshakeAttempts)) else None
  }

  lemma TimersSay(o: Obfuscation20, asked: string)
    requires PlainKey(asked)
    ensures ValueIn(DeviceLines(o), SEP, asked) == TimerSaid(o, asked)
  {
    var a, b, c := Trimmed("HeaderProtectionKey", o.headerProtectionKey),
      Trimmed("ContentPaddingAddition", o.contentPaddingAddition), Trimmed("RekeyAfterTime", o.rekeyAfterTime);
    var d, e, f, g := Trimmed("RekeyTimeout", o.rekeyTimeout), Trimmed("RejectAfterTime", o.rejectAfterTime),
      Trimmed("KeepaliveTimeout", o.keepaliveTimeout), Trimmed("MaxHandshakeAttempts", o.maxHandshakeAttempts);
    TrimmedSays("HeaderProtectionKey", o.headerProtectionKey, asked);
    TrimmedSays("ContentPaddingAddition", o.contentPaddingAddition, asked);
    TrimmedSays("RekeyAfterTime", o.rekeyAfterTime, asked);
    TrimmedSays("RekeyTimeout", o.rekeyTimeout, asked);
    TrimmedSays("RejectAfterTime", o.rejectAfterTime, asked);
    TrimmedSays("KeepaliveTimeout", o.keepaliveTimeout, asked);
    TrimmedSays("MaxHandshakeAttempts", o.maxHandshakeAttempts, asked);
    FiveParts(a, b, c, d, e, SEP, asked);
    ThreeParts(a + b + c + d + e, f, g, SEP, asked);
    assert DeviceLines(o) == a + b + c + d + e + f + g;
  }

  function SwitchSaid(o: Obfuscation20, asked: string): Option<string> {
    if asked == "RandomTrailers" then Switch(o.randomTrailers)
    else if asked == "DisableCookies" then Switch(o.disableCookies) else None
  }

  lemma SwitchesSay(o: Obfuscation20, asked: string)
    requires PlainKey(asked)
    ensures ValueIn(SwitchLines(o), SEP, asked) == SwitchSaid(o, asked)
  {
    KeysArePlain("RandomTrailers");
    KeysArePlain("DisableCookies");
    SwitchSays("RandomTrailers", o.randomTrailers, asked);
    SwitchSays("DisableCookies", o.disableCookies, asked);
    ValueInBoth(if o.randomTrailers then [KeyLine("RandomTrailers", "on")] else [],
                if o.disableCookies then [KeyLine("DisableCookies", "on")] else [], SEP, asked);
  }

  /** What the head of a printed config says. */
  lemma SectionSays(inst: Instance, asked: string)
    requires PlainKey(asked)
    ensures var o := inst.obfuscation;
      ValueIn(SectionLines(inst), SEP, asked) ==
      Or(One("PrivateKey", Some(inst.privateKey), asked),
         Or(One("ListenPort", Some(DecInt(inst.listenPort)), asked),
            Or(Or(Or(Or(ValueIn(PaddingLines(o), SEP, asked), ValueIn(HeaderLines(o), SEP, asked)),
                     ValueIn(SignatureLines(o), SEP, asked)), ValueIn(DeviceLines(o), SEP, asked)),
               ValueIn(SwitchLines(o), SEP, asked))))
  {
    var o := inst.obfuscation;
    KeysArePlain("PrivateKey");
    KeysArePlain("ListenPort");
    KeySays("PrivateKey", inst.privateKey, asked);
    KeySays("ListenPort", DecInt(inst.listenPort), asked);
    FiveParts(PaddingLines(o), HeaderLines(o), SignatureLines(o), DeviceLines(o), SwitchLines(o), SEP, asked);
    ValueInBoth([KeyLine("ListenPort", DecInt(inst.listenPort))], ObfuscationLines(o), SEP, asked);
    ValueInBoth([KeyLine("PrivateKey", inst.privateKey)], SettingLines(inst), SEP, asked);
  }

  lemma HeadSays(inst: Instance, asked: string)
    requires PlainKey(asked)
    ensures ValueIn(HeadLines(inst) + [""], SEP, asked) == ValueIn(SectionLines(inst), SEP, asked)
  {
    var marker, title, section := OwnershipMarker(OwnedInterfaceName(inst.id)), "[Interface]", SectionLines(inst);
    assert marker == "# 3x-ui-owned-amneziawg: " + OwnedInterfaceName(inst.id) && marker[0] == '#';
    NothingSaid(marker, SEP, asked);
    NothingSaid(title, SEP, asked);
    NothingSaid("", SEP, asked);
    TwoSay(marker, title, SEP, asked);
    ThreeParts([marker, title], section, [""], SEP, asked);
    assert HeadLines(inst) == [marker, title] + section;
  }

  lemma PrintedLines(inst: Instance)
    requires Renderable(inst)
    ensures Split(Unlines(RenderLines(inst)), '\n') == HeadLines(inst) + (AllPeerLines(inst.peers) + [""])
  {
    RenderedLinesClean(inst);
    CleanUnlines(RenderLines(inst));
    SplitUnlines(RenderLines(inst));
    Associate(HeadLines(inst), AllPeerLines(inst.peers), [""]);
  }

  lemma HeadNamesNoPeer(inst: Instance)
    requires Renderable(inst)
    ensures "[Peer]" !in HeadLines(inst)
  {
    HeadHasNoPeer(inst);
    assert "[Peer]" in HeadLines(inst) ==> NoPeerHeader("[Peer]");
  }

  /** Above the first peer of a printed config is its head. */
  lemma AboveIsHead(inst: Instance)
    requires Renderable(inst)
    ensures AbovePeer(Split(Unlines(RenderLines(inst)), '\n')) == HeadLines(inst) + [""]
  {
    PrintedLines(inst);
    HeadNamesNoPeer(inst);
    AboveBoth(HeadLines(inst), AllPeerLines(inst.peers) + [""]);
    AbovePeers(inst.peers);
  }

  lemma AbovePeers(peers: seq<Peer>)
    ensures AbovePeer(AllPeerLines(peers) + [""]) == [""]
  {
    var ls := AllPeerLines(peers) + [""];
    PeerTextStart(peers);
    assert ls[0] == "" && AbovePeer(ls) == [""] + AbovePeer(ls[1..]);
    assert ls[1..] == [] || ls[1..][0] == "[Peer]";
  }

  lemma SettingSays(inst: Instance, asked: string)
    requires Renderable(inst) && PlainKey(asked)
    ensures Setting(Unlines(RenderLines(inst)), asked) == ValueIn(SectionLines(inst), SEP, asked)
  {
    AboveIsHead(inst);
    HeadSays(inst, asked);
  }

  lemma Asked(inst: Instance, asked: string)
    requires Renderable(inst) && PlainKey(asked)
    ensures var o := inst.obfuscation;
      Setting(Unlines(RenderLines(inst)), asked) ==
      Or(One("PrivateKey", Some(inst.privateKey), asked),
         Or(One("ListenPort", Some(DecInt(inst.listenPort)), asked),
            Or(Or(Or(Or(PaddingSaid(o, asked), TypeSaid(o, asked)), SignatureSaid(o, asked)), TimerSaid(o, asked)),
               SwitchSaid(o, asked))))
  {
    var o := inst.obfuscation;
    SettingSays(inst, asked);
    SectionSays(inst, asked);
    PaddingsSay(o, asked);
    TypesSay(o, asked);
    SignaturesSay(o, asked);
    TimersSay(o, asked);
    SwitchesSay(o, asked);
  }

  lemma NotPadding(o: Obfuscation20, asked: string)
    requires asked != "" && asked[0] != 'J' && asked[0] != 'S'
    ensures PaddingSaid(o, asked) == None
  {
    assert "Jc"[0] == "Jmin"[0] == "Jmax"[0] == 'J' && "S1"[0] == "S2"[0] == "S3"[0] == "S4"[0] == 'S';
  }

  lemma NotType(o: Obfuscation20, asked: string)
    requires asked != "" && (asked[0] != 'H' || |asked| > 2)
    ensures TypeSaid(o, asked) == None
  {
    assert "H1"[0] == "H2"[0] == "H3"[0] == "H4"[0] == 'H' && |"H1"| == |"H2"| == |"H3"| == |"H4"| == 2;
  }

  lemma NotSignature(o: Obfuscation20, asked: string)
    requires asked != "" && asked[0] != 'I'
    ensures SignatureSaid(o, asked) == None
  {
    assert "I1"[0] == "I2"[0] == "I3"[0] == "I4"[0] == "I5"[0] == 'I';
  }

  lemma NotLong(o: Obfuscation20, asked: string)
    requires |asked| <= 4
    ensures TimerSaid(o, asked) == None && SwitchSaid(o, asked) == None
    ensures asked != "PrivateKey" && asked != "ListenPort"
  {
  }

  lemma PaddingAsked(inst: Instance, asked: string)
    requires Renderable(inst) && PlainKey(asked) && |asked| <= 4 && (asked[0] == 'J' || asked[0] == 'S')
    ensures Setting(Unlines(RenderLines(inst)), asked) == PaddingSaid(inst.obfuscation, asked)
  {
    Asked(inst, asked);
    NotType(inst.obfuscation, asked);
    NotSignature(inst.obfuscation, asked);
    NotLong(inst.obfuscation, asked);
  }

  lemma TypeAsked(inst: Instance, asked: string)
    requires Renderable(inst) && PlainKey(asked) && |asked| <= 4 && asked[0] == 'H'
    ensures Setting(Unlines(RenderLines(inst)), asked) == TypeSaid(inst.obfuscation, asked)
  {
    Asked(inst, asked);
    NotPadding(inst.obfuscation, asked);
    NotSignature(inst.obfuscation, asked);
    NotLong(inst.obfuscation, asked);
  }

  lemma SignatureAsked(inst: Instance, asked: string)
    requires Renderable(inst) && PlainKey(asked) && |asked| <= 4 && asked[0] == 'I'
    ensures Setting(Unlines(RenderLines(inst)), asked) == SignatureSaid(inst.obfuscation, asked)
  {
    Asked(inst, asked);
    NotPadding(inst.obfuscation, asked);
    NotType(inst.obfuscation, asked);
    NotLong(inst.obfuscation, asked);
  }

  /** A reader, whatever it reads. */
  type Reader = string -> Option<string>

  lemma PaddingsSaid(f: Reader, jc: string, jmin: string, jmax: string, s1: string, s2: string, s3: Option<string>,
                     s4: Option<string>)
    requires forall asked :: PlainKey(asked) && |asked| <= 4 && (asked[0] == 'J' || asked[0] == 'S') ==>
      f(asked) == PaddingValue(jc, jmin, jmax, s1, s2, s3, s4, asked)
    ensures f("Jc") == Some(jc) && f("Jmin") == Some(jmin) && f("Jmax") == Some(jmax)
    ensures f("S1") == Some(s1) && f("S2") == Some(s2) && f("S3") == s3 && f("S4") == s4
  {
    PaddingValues(jc, jmin, jmax, s1, s2, s3, s4);
    assert PlainKey("Jc") && PlainKey("Jmin") && PlainKey("Jmax");
    assert PlainKey("S1") && PlainKey("S2") && PlainKey("S3") && PlainKey("S4");
  }

  lemma PaddingsReadBack(inst: Instance)
    requires Renderable(inst)
    ensures SaysPaddings(Unlines(RenderLines(inst)), inst.obfuscation)
  {
    var conf, o := Unlines(RenderLines(inst)), inst.obfuscation;
    var f: Reader := asked => Setting(conf, asked);
    forall asked | PlainKey(asked) && |asked| <= 4 && (asked[0] == 'J' || asked[0] == 'S')
      ensures f(asked) == PaddingSaid(o, asked) {
      PaddingAsked(inst, asked);
    }
    PaddingsSaid(f, DecInt(o.jc), DecInt(o.jmin), DecInt(o.jmax), DecInt(o.s1), DecInt(o.s2), Positive(o.s3),
                 Positive(o.s4));
  }

  lemma TypesSaid(f: Reader, h1: string, h2: string, h3: string, h4: string)
    requires forall asked :: PlainKey(asked) && |asked| <= 4 && asked[0] == 'H' ==>
      f(asked) == TypeValue(h1, h2, h3, h4, asked)
    ensures f("H1") == Some(h1) && f("H2") == Some(h2) && f("H3") == Some(h3) && f("H4") == Some(h4)
  {
    TypeValues(h1, h2, h3, h4);
    assert PlainKey("H1") && PlainKey("H2") && PlainKey("H3") && PlainKey("H4");
  }

  lemma TypesReadBack(inst: Instance)
    requires Renderable(inst)
    ensures SaysTypes(Unlines(RenderLines(inst)), inst.obfuscation)
  {
    var conf, o := Unlines(RenderLines(inst)), inst.obfuscation;
    var f: Reader := asked => Setting(conf, asked);
    forall asked | PlainKey(asked) && |asked| <= 4 && asked[0] == 'H' ensures f(asked) == TypeSaid(o, asked) {
      TypeAsked(inst, asked);
    }
    TypesSaid(f, TypeOr(o.h1, "1"), TypeOr(o.h2, "2"), TypeOr(o.h3, "3"), TypeOr(o.h4, "4"));
  }

  lemma SignaturesSaid(f: Reader, o: Obfuscation20)
    requires forall asked :: PlainKey(asked) && |asked| <= 4 && asked[0] == 'I' ==> f(asked) == SignatureSaid(o, asked)
    ensures f("I1") == IfAny(o.i1) && f("I2") == IfAny(o.i2) && f("I3") == IfAny(o.i3)
    ensures f("I4") == IfAny(o.i4) && f("I5") == IfAny(o.i5)
  {
    assert PlainKey("I1") && PlainKey("I2") && PlainKey("I3") && PlainKey("I4") && PlainKey("I5");
  }

  lemma SignaturesReadBack(inst: Instance)
    requires Renderable(inst)
    ensures SaysSignatures(Unlines(RenderLines(inst)), inst.obfuscation)
  {
    var conf, o := Unlines(RenderLines(inst)), inst.obfuscation;
    var f: Reader := asked => Setting(conf, asked);
    forall asked | PlainKey(asked) && |asked| <= 4 && asked[0] == 'I' ensures f(asked) == SignatureSaid(o, asked) {
      SignatureAsked(inst, asked);
    }
    SignaturesSaid(f, o);
  }

  lemma TimersReadBack(inst: Instance)
    requires Renderable(inst)
    ensures SaysTimers(Unlines(RenderLines(inst)), inst.obfuscation)
  {
    KeysArePlain("HeaderProtectionKey"); KeysArePlain("ContentPaddingAddition"); KeysArePlain("RekeyAfterTime");
    KeysArePlain("RekeyTimeout"); KeysArePlain("RejectAfterTime"); KeysArePlain("KeepaliveTimeout");
    KeysArePlain("MaxHandshakeAttempts");
    Asked(inst, "HeaderProtectionKey"); Asked(inst, "ContentPaddingAddition"); Asked(inst, "RekeyAfterTime");
    Asked(inst, "RekeyTimeout"); Asked(inst, "RejectAfterTime"); Asked(inst, "KeepaliveTimeout");
    Asked(inst, "MaxHandshakeAttempts");
  }

  /** Every setting of a printed config is the field its key names. */
  lemma SettingsReadBack(inst: Instance)
    requires Renderable(inst)
    ensures SaysSettings(Unlines(RenderLines(inst)), inst)
  {
    PaddingsReadBack(inst);
    TypesReadBack(inst);
    SignaturesReadBack(inst);
    TimersReadBack(inst);
    KeysArePlain("PrivateKey"); KeysArePlain("ListenPort");
    KeysArePlain("RandomTrailers"); KeysArePlain("DisableCookies");
    Asked(inst, "PrivateKey"); Asked(inst, "ListenPort");
    Asked(inst, "RandomTrailers"); Asked(inst, "DisableCookies");
  }

  // ---------------------------------------------------------------------------
  // The peers
  // ---------------------------------------------------------------------------

  /** What the file should say of the peers: those without a key or addresses are left out. */
  function Wanted(peers: seq<Peer>): seq<Said> {
    if peers == [] then []
    else
      var p, rest := peers[0], Wanted(peers[1..]);
      if p.publicKey == "" || p.allowedIPs == [] then rest
      else [Said(Some(p.publicKey), IfAny(p.presharedKey), Some(Join(p.allowedIPs, ", ")))] + rest
  }

  lemma {:induction false} FirstPeerLines(peers: seq<Peer>)
    requires peers != []
    ensures AllPeerLines(peers) == PeerLines(peers[0]) + AllPeerLines(peers[1..])
  {
    var n := |peers| - 1;
    if n == 0 {
      assert peers[..0] == [] && peers[1..] == [] && AllPeerLines([]) == [];
    } else {
      FirstPeerLines(peers[..n]);
      assert peers[..n][1..] == peers[1..n] && peers[..n][0] == peers[0];
      LastPeerLines(peers[1..]);
      assert peers[1..][..n - 1] == peers[1..n] && peers[1..][n - 1] == peers[n];
      Associate(PeerLines(peers[0]), AllPeerLines(peers[1..n]), PeerLines(peers[n]));
    }
  }

  lemma LastPeerLines(peers: seq<Peer>)
    requires peers != []
    ensures AllPeerLines(peers) == AllPeerLines(peers[..|peers| - 1]) + PeerLines(peers[|peers| - 1])
  {
  }

  lemma Associate(a: seq<string>, b: seq<string>, c: seq<string>)
    ensures a + b + c == a + (b + c)
  {
  }

  /** The lines of a peer's block below its header. */
  function Below(p: Peer): seq<string> { (if p.email == "" then [] else ["# " + p.email]) + PeerKeyLines(p) }

  lemma BelowSays(p: Peer)
    ensures BlockOf(Below(p) + [""]) == Said(Some(p.publicKey), IfAny(p.presharedKey), Some(Join(p.allowedIPs, ", ")))
  {
    BlockSays(p, "PublicKey");
    BlockSays(p, "PresharedKey");
    BlockSays(p, "AllowedIPs");
  }

  lemma BlockSays(p: Peer, asked: string)
    requires asked in PEER_KEYS
    ensures ValueIn(Below(p) + [""], SEP, asked) ==
      Or(Or(One("PublicKey", Some(p.publicKey), asked), One("PresharedKey", IfAny(p.presharedKey), asked)),
         One("AllowedIPs", Some(Join(p.allowedIPs, ", ")), asked))
  {
    PeerKeysArePlain(asked);
    PeerKeysArePlain("PublicKey"); PeerKeysArePlain("PresharedKey"); PeerKeysArePlain("AllowedIPs");
    KeySays("PublicKey", p.publicKey, asked);
    OptionalSays("PresharedKey", p.presharedKey, asked);
    KeySays("AllowedIPs", Join(p.allowedIPs, ", "), asked);
    ThreeParts([KeyLine("PublicKey", p.publicKey)], OptionalLine("PresharedKey", p.presharedKey),
               [KeyLine("AllowedIPs", Join(p.allowedIPs, ", "))], SEP, asked);
    NothingSaid("# " + p.email, SEP, asked);
    NothingSaid("", SEP, asked);
    ThreeParts(if p.email == "" then [] else ["# " + p.email], PeerKeyLines(p), [""], SEP, asked);
  }

  lemma BelowNoPeer(p: Peer)
    ensures "[Peer]" !in Below(p)
  {
    assert "[Peer]"[0] == '[';
    assert ("# " + p.email)[0] == '#' && KeyLine("PublicKey", p.publicKey)[0] == 'P';
    assert KeyLine("PresharedKey", p.presharedKey)[0] == 'P';
    assert KeyLine("AllowedIPs", Join(p.allowedIPs, ", "))[0] == 'A';
  }

  lemma OneBlock(p: Peer, rest: seq<string>)
    requires Rendered(p) && AbovePeer(rest) == [""]
    ensures Blocks(PeerLines(p) + rest) == [BlockOf(Below(p) + [""])] + Blocks(rest)
  {
    var ls := PeerLines(p) + rest;
    BelowNoPeer(p);
    AboveBoth(Below(p), rest);
    BlocksBoth(Below(p), rest);
    assert PeerLines(p) == ["", "[Peer]"] + Below(p);
    assert ls == [""] + (["[Peer]"] + (Below(p) + rest));
    assert ls[1..] == ["[Peer]"] + (Below(p) + rest) && ls[1..][1..] == Below(p) + rest;
  }

  lemma {:induction false} BlocksReadBack(peers: seq<Peer>)
    ensures Blocks(AllPeerLines(peers) + [""]) == Wanted(peers)
  {
    if peers == [] {
      assert [] + [""] == [""] && Blocks([""][1..]) == [];
    } else {
      var p, more := peers[0], AllPeerLines(peers[1..]) + [""];
      FirstPeerLines(peers);
      BlocksReadBack(peers[1..]);
      AbovePeers(peers[1..]);
      assert AllPeerLines(peers) + [""] == PeerLines(p) + more;
      if Rendered(p) {
        OneBlock(p, more);
        BelowSays(p);
      } else {
        assert PeerLines(p) + more == more;
      }
    }
  }

  /** The peer blocks of a printed config are the peers with a key and addresses, in their order. */
  lemma PeersReadBack(inst: Instance)
    requires Renderable(inst)
    ensures PeersOf(Unlines(RenderLines(inst))) == Wanted(inst.peers)
  {
    PrintedLines(inst);
    HeadNamesNoPeer(inst);
    BlocksBoth(HeadLines(inst), AllPeerLines(inst.peers) + [""]);
    BlocksReadBack(inst.peers);
  }
}
