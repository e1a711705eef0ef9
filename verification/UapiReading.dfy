/** What an embedded device reads in its UAPI text: every setting comes back by its name, so a text
    that has not changed means settings that have not. */
module UapiReading {
  import opened Text
  import opened Amnezia
  import opened UapiConfig
  import opened Reading

  const SEP := "="

  /** What the text says of a setting. */
  function Says(conf: string, name: Name): Option<string> { ValueIn(Split(conf, '\n'), SEP, name.Show()) }

  // ---------------------------------------------------------------------------
  // Fields
  // ---------------------------------------------------------------------------

  /** The place of a setting in the text. */
  function Place(n: Name): nat {
    match n
    case PrivateKey => 0
    case ListenPort => 1
    case ReplacePeers => 2
    case Jc => 3
    case Jmin => 4
    case Jmax => 5
    case S1 => 6
    case S2 => 7
    case S3 => 8
    case S4 => 9
    case H1 => 10
    case H2 => 11
    case H3 => 12
    case H4 => 13
    case I1 => 14
    case I2 => 15
    case I3 => 16
    case I4 => 17
    case I5 => 18
    case HeaderProtectionKey => 19
    case ContentPaddingAddition => 20
    case RekeyAfterTime => 21
    case RekeyTimeout => 22
    case RejectAfterTime => 23
    case KeepaliveTimeout => 24
    case MaxHandshakeAttempts => 25
    case RandomTrailers => 26
    case DisableCookies => 27
  }

  lemma FirstShownEnd(n: Name)
    requires Place(n) < 19
    ensures '=' !in n.Show()
  {
  }

  lemma LastShownEnd(n: Name)
    requires Place(n) >= 19
    ensures '=' !in n.Show()
  {
  }

  lemma ShownEnds(n: Name)
    ensures KeyFor(SEP, n.Show())
  {
    assert SEP[0] == '=';
    if Place(n) < 19 {
      FirstShownEnd(n);
    } else {
      LastShownEnd(n);
    }
  }

  /** The shown names, in their places. */
  const SHOWN := [
    "private_key", "listen_port", "replace_peers", "jc", "jmin", "jmax", "s1", "s2", "s3", "s4", "h1", "h2", "h3", "h4",
    "i1", "i2", "i3", "i4", "i5", "header_protection_key", "content_padding_addition", "rekey_after_time",
    "rekey_timeout", "reject_after_time", "keepalive_timeout", "max_handshake_attempts", "random_trailers",
    "disable_cookies" ]

  lemma ShownTell()
    ensures forall i, j :: 0 <= i < j < |SHOWN| ==> SHOWN[i] != SHOWN[j]
  {
  }

  lemma FirstShown(n: Name)
    requires Place(n) < 14
    ensures n.Show() == SHOWN[Place(n)]
  {
  }

  lemma LastShown(n: Name)
    requires Place(n) >= 14
    ensures Place(n) < |SHOWN| && n.Show() == SHOWN[Place(n)]
  {
  }

  /** Every setting has its own name in the text. */
  lemma ShownAt(n: Name)
    ensures Place(n) < |SHOWN| && n.Show() == SHOWN[Place(n)]
  {
    if Place(n) < 14 {
      FirstShown(n);
    } else {
      LastShown(n);
    }
  }

  lemma PlaceTells(a: Name, b: Name)
    requires Place(a) == Place(b)
    ensures a == b
  {
  }

  lemma ShowTells(a: Name, b: Name)
    requires a.Show() == b.Show()
    ensures a == b
  {
    ShownTell();
    ShownAt(a);
    ShownAt(b);
    PlaceTells(a, b);
  }

  function FieldLine(f: Field): seq<string> {
    if f.optional && f.value == "" then [] else [Line(f.name.Show(), f.value)]
  }

  /** What a field's line says. */
  function FieldSaid(f: Field): Option<string> { if f.optional then IfAny(f.value) else Some(f.value) }

  lemma FieldSays(f: Field, asked: Name)
    ensures ValueIn(FieldLine(f), SEP, asked.Show()) == if asked == f.name then FieldSaid(f) else None
  {
    ShownEnds(f.name);
    ShownEnds(asked);
    LineSays(Line(f.name.Show(), f.value), SEP, f.name.Show(), f.value, asked.Show());
    if asked.Show() == f.name.Show() {
      ShowTells(asked, f.name);
    }
  }

  /** The fields stand in their places. */
  predicate Placed(fields: seq<Field>, from: nat) {
    forall i :: 0 <= i < |fields| ==> Place(fields[i].name) == from + i
  }

  lemma PlacedBoth(a: seq<Field>, b: seq<Field>, from: nat)
    requires Placed(a, from) && Placed(b, from + |a|)
    ensures Placed(a + b, from)
  {
  }

  lemma {:induction false} NameAbsent(fields: seq<Field>, asked: Name)
    requires forall f :: f in fields ==> f.name != asked
    ensures ValueIn(FieldLines(fields), SEP, asked.Show()) == None
  {
    if fields != [] {
      NameAbsent(fields[1..], asked);
      FieldSays(fields[0], asked);
      ValueInBoth(FieldLine(fields[0]), FieldLines(fields[1..]), SEP, asked.Show());
      assert FieldLines(fields) == FieldLine(fields[0]) + FieldLines(fields[1..]);
    }
  }

  /** Each field is read back by its name. */
  lemma {:induction false} FieldRead(fields: seq<Field>, from: nat, i: nat)
    requires i < |fields| && Placed(fields, from)
    ensures ValueIn(FieldLines(fields), SEP, fields[i].name.Show()) == FieldSaid(fields[i])
  {
    var asked := fields[i].name;
    FieldSays(fields[0], asked);
    ValueInBoth(FieldLine(fields[0]), FieldLines(fields[1..]), SEP, asked.Show());
    assert FieldLines(fields) == FieldLine(fields[0]) + FieldLines(fields[1..]);
    if i == 0 {
      NameAbsent(fields[1..], asked);
    } else {
      FieldRead(fields[1..], from + 1, i - 1);
    }
  }

  // ---------------------------------------------------------------------------
  // Peers say nothing of the device
  // ---------------------------------------------------------------------------

  predicate NoPeerName(name: string) {
    KeyFor(SEP, name) && name != "public_key" && name != "preshared_key" && name != "allowed_ip"
  }

  lemma NotAsked(key: string, value: string, asked: string)
    requires key in {"public_key", "preshared_key", "allowed_ip"} && NoPeerName(asked)
    ensures ValueIn([Line(key, value)], SEP, asked) == None
  {
    assert SEP[0] == '=' && KeyFor(SEP, key);
    LineSays(Line(key, value), SEP, key, value, asked);
  }

  lemma {:induction false} IpsSilent(ips: seq<string>, asked: string)
    requires NoPeerName(asked)
    ensures ValueIn(IpLines(ips), SEP, asked) == None
  {
    if ips != [] {
      IpsSilent(ips[1..], asked);
      NotAsked("allowed_ip", ips[0], asked);
      ValueInBoth([Line("allowed_ip", ips[0])], IpLines(ips[1..]), SEP, asked);
    }
  }

  lemma ViewSilent(v: View, asked: string)
    requires NoPeerName(asked)
    ensures ValueIn(ViewLines(v), SEP, asked) == None
  {
    NotAsked("public_key", v.pub, asked);
    if v.psk.Some? {
      NotAsked("preshared_key", v.psk.value, asked);
    }
    IpsSilent(v.ips, asked);
    ValueInBoth(PskLines(v), IpLines(v.ips), SEP, asked);
    ValueInBoth([Line("public_key", v.pub)], PskLines(v) + IpLines(v.ips), SEP, asked);
  }

  lemma {:induction false} PeersSilent(views: seq<View>, asked: string)
    requires NoPeerName(asked)
    ensures ValueIn(PeerLines(views), SEP, asked) == None
  {
    if views != [] {
      PeersSilent(views[1..], asked);
      ViewSilent(views[0], asked);
      ValueInBoth(ViewLines(views[0]), PeerLines(views[1..]), SEP, asked);
    }
  }

  lemma ShownIsNoPeerName(n: Name)
    ensures NoPeerName(n.Show())
  {
    ShownEnds(n);
    assert "public_key"[1] == 'u';
  }

  // ---------------------------------------------------------------------------
  // The whole text
  // ---------------------------------------------------------------------------

  /** The device's private key, and its header protection key, in hex. */
  function Keys(hex: Hex, inst: Instance, opts: Options): (string, string)
    requires ConfigLines(hex, inst, opts).Ok?
  {
    (hex(inst.privateKey).value, HeaderKey(hex, opts).value)
  }

  function FieldsOf(hex: Hex, inst: Instance, opts: Options): seq<Field>
    requires ConfigLines(hex, inst, opts).Ok?
  {
    DeviceFields(Keys(hex, inst, opts).0, Keys(hex, inst, opts).1, inst, opts)
  }

  lemma LinkPlaced(priv: string, inst: Instance)
    ensures Placed(LinkFields(priv, inst), 0)
  {
  }

  lemma JunkPlaced(o: Obfuscation20)
    ensures Placed(JunkFields(o), 3)
  {
  }

  lemma TypesPlaced(o: Obfuscation20)
    ensures Placed(TypeFields(o), 10)
  {
  }

  lemma OptionsPlaced(hp: string, opts: Options)
    ensures Placed(OptionFields(hp, opts), 19)
  {
  }

  lemma DevicePlaced(priv: string, hp: string, inst: Instance, opts: Options)
    ensures Placed(DeviceFields(priv, hp, inst, opts), 0)
  {
    var a, b, c, d := LinkFields(priv, inst), JunkFields(inst.obfuscation), TypeFields(inst.obfuscation),
      OptionFields(hp, opts);
    LinkPlaced(priv, inst);
    JunkPlaced(inst.obfuscation);
    TypesPlaced(inst.obfuscation);
    OptionsPlaced(hp, opts);
    FourPlaced(a, b, c, d);
  }

  lemma FourPlaced(a: seq<Field>, b: seq<Field>, c: seq<Field>, d: seq<Field>)
    requires |a| == 3 && |b| == 7 && |c| == 9
    requires Placed(a, 0) && Placed(b, 3) && Placed(c, 10) && Placed(d, 19)
    ensures Placed(a + b + c + d, 0)
  {
    PlacedBoth(a, b, 0);
    PlacedBoth(a + b, c, 0);
    PlacedBoth(a + b + c, d, 0);
  }

  lemma TextSays(hex: Hex, inst: Instance, opts: Options, f: Field)
    requires ConfigLines(hex, inst, opts).Ok? && AllOneLine(ConfigLines(hex, inst, opts).value)
    requires f in FieldsOf(hex, inst, opts)
    ensures Says(Config(hex, inst, opts).value, f.name) == FieldSaid(f)
  {
    var fields, lines := FieldsOf(hex, inst, opts), ConfigLines(hex, inst, opts).value;
    var i :| 0 <= i < |fields| && fields[i] == f;
    var asked := f.name.Show();
    DevicePlaced(Keys(hex, inst, opts).0, Keys(hex, inst, opts).1, inst, opts);
    FieldRead(fields, 0, i);
    ShownIsNoPeerName(f.name);
    PeersSilent(Views(hex, inst.peers).value, asked);
    NothingSaid("", SEP, asked);
    ThreeParts(FieldLines(fields), PeerLines(Views(hex, inst.peers).value), [""], SEP, asked);
    SplitUnlines(lines);
  }

  predicate SaysLink(conf: string, priv: string, inst: Instance) {
    && Says(conf, PrivateKey) == Some(priv) && Says(conf, ListenPort) == Some(DecInt(inst.listenPort))
    && Says(conf, ReplacePeers) == Some("true")
  }

  predicate SaysJunk(conf: string, o: Obfuscation20) {
    && Says(conf, Jc) == Some(DecInt(o.jc)) && Says(conf, Jmin) == Some(DecInt(o.jmin))
    && Says(conf, Jmax) == Some(DecInt(o.jmax))
    && Says(conf, S1) == Some(DecInt(o.s1)) && Says(conf, S2) == Some(DecInt(o.s2))
    && Says(conf, S3) == Some(DecInt(o.s3)) && Says(conf, S4) == Some(DecInt(o.s4))
  }

  predicate SaysTypes(conf: string, o: Obfuscation20) {
    && Says(conf, H1) == IfAny(o.h1) && Says(conf, H2) == IfAny(o.h2) && Says(conf, H3) == IfAny(o.h3)
    && Says(conf, H4) == IfAny(o.h4)
    && Says(conf, I1) == IfAny(o.i1) && Says(conf, I2) == IfAny(o.i2) && Says(conf, I3) == IfAny(o.i3)
    && Says(conf, I4) == IfAny(o.i4) && Says(conf, I5) == IfAny(o.i5)
  }

  predicate SaysOptions(conf: string, hp: string, opts: Options) {
    && Says(conf, HeaderProtectionKey) == Some(hp)
    && Says(conf, ContentPaddingAddition) == IfAny(opts.contentPaddingAddition)
    && Says(conf, RekeyAfterTime) == IfAny(opts.rekeyAfterTime)
    && Says(conf, RekeyTimeout) == IfAny(opts.rekeyTimeout)
    && Says(conf, RejectAfterTime) == IfAny(opts.rejectAfterTime)
    && Says(conf, KeepaliveTimeout) == IfAny(opts.keepaliveTimeout)
    && Says(conf, MaxHandshakeAttempts) == IfAny(opts.maxHandshakeAttempts)
    && Says(conf, RandomTrailers) == Some(if opts.randomTrailers then "true" else "false")
    && Says(conf, DisableCookies) == Some(if opts.disableCookies then "true" else "false")
  }

  predicate Tells(conf: string, f: Field) { Says(conf, f.name) == FieldSaid(f) }

  lemma LinkTold(hex: Hex, inst: Instance, opts: Options, i: nat)
    requires ConfigLines(hex, inst, opts).Ok? && AllOneLine(ConfigLines(hex, inst, opts).value)
    requires i < |LinkFields(hex(inst.privateKey).value, inst)|
    ensures Tells(Config(hex, inst, opts).value, LinkFields(hex(inst.privateKey).value, inst)[i])
  {
    var f, all := LinkFields(hex(inst.privateKey).value, inst)[i], FieldsOf(hex, inst, opts);
    assert all[0 + i] == f;
    TextSays(hex, inst, opts, f);
  }

  lemma LinkReadsBack(hex: Hex, inst: Instance, opts: Options)
    requires ConfigLines(hex, inst, opts).Ok? && AllOneLine(ConfigLines(hex, inst, opts).value)
    ensures SaysLink(Config(hex, inst, opts).value, hex(inst.privateKey).value, inst)
  {
    LinkTold(hex, inst, opts, 0); LinkTold(hex, inst, opts, 1); LinkTold(hex, inst, opts, 2);
  }

  lemma JunkTold(hex: Hex, inst: Instance, opts: Options, i: nat)
    requires ConfigLines(hex, inst, opts).Ok? && AllOneLine(ConfigLines(hex, inst, opts).value)
    requires i < |JunkFields(inst.obfuscation)|
    ensures Tells(Config(hex, inst, opts).value, JunkFields(inst.obfuscation)[i])
  {
    var f, all := JunkFields(inst.obfuscation)[i], FieldsOf(hex, inst, opts);
    assert all[3 + i] == f;
    TextSays(hex, inst, opts, f);
  }

  lemma JunkReadsBack(hex: Hex, inst: Instance, opts: Options)
    requires ConfigLines(hex, inst, opts).Ok? && AllOneLine(ConfigLines(hex, inst, opts).value)
    ensures SaysJunk(Config(hex, inst, opts).value, inst.obfuscation)
  {
    JunkTold(hex, inst, opts, 0); JunkTold(hex, inst, opts, 1); JunkTold(hex, inst, opts, 2);
    JunkTold(hex, inst, opts, 3); JunkTold(hex, inst, opts, 4); JunkTold(hex, inst, opts, 5);
    JunkTold(hex, inst, opts, 6);
  }

  lemma TypesTold(hex: Hex, inst: Instance, opts: Options, i: nat)
    requires ConfigLines(hex, inst, opts).Ok? && AllOneLine(ConfigLines(hex, inst, opts).value)
    requires i < |TypeFields(inst.obfuscation)|
    ensures Tells(Config(hex, inst, opts).value, TypeFields(inst.obfuscation)[i])
  {
    var f, all := TypeFields(inst.obfuscation)[i], FieldsOf(hex, inst, opts);
    assert all[10 + i] == f;
    TextSays(hex, inst, opts, f);
  }

  lemma TypesReadBack(hex: Hex, inst: Instance, opts: Options)
    requires ConfigLines(hex, inst, opts).Ok? && AllOneLine(ConfigLines(hex, inst, opts).value)
    ensures SaysTypes(Config(hex, inst, opts).value, inst.obfuscation)
  {
    TypesTold(hex, inst, opts, 0); TypesTold(hex, inst, opts, 1); TypesTold(hex, inst, opts, 2);
    TypesTold(hex, inst, opts, 3); TypesTold(hex, inst, opts, 4); TypesTold(hex, inst, opts, 5);
    TypesTold(hex, inst, opts, 6); TypesTold(hex, inst, opts, 7); TypesTold(hex, inst, opts, 8);
  }

  lemma OptionsTold(hex: Hex, inst: Instance, opts: Options, i: nat)
    requires ConfigLines(hex, inst, opts).Ok? && AllOneLine(ConfigLines(hex, inst, opts).value)
    requires i < |OptionFields(HeaderKey(hex, opts).value, opts)|
    ensures Tells(Config(hex, inst, opts).value, OptionFields(HeaderKey(hex, opts).value, opts)[i])
  {
    var f, all := OptionFields(HeaderKey(hex, opts).value, opts)[i], FieldsOf(hex, inst, opts);
    assert all[19 + i] == f;
    TextSays(hex, inst, opts, f);
  }

  lemma OptionsReadBack(hex: Hex, inst: Instance, opts: Options)
    requires ConfigLines(hex, inst, opts).Ok? && AllOneLine(ConfigLines(hex, inst, opts).value)
    ensures SaysOptions(Config(hex, inst, opts).value, HeaderKey(hex, opts).value, opts)
  {
    OptionsTold(hex, inst, opts, 0); OptionsTold(hex, inst, opts, 1); OptionsTold(hex, inst, opts, 2);
    OptionsTold(hex, inst, opts, 3); OptionsTold(hex, inst, opts, 4); OptionsTold(hex, inst, opts, 5);
    OptionsTold(hex, inst, opts, 6); OptionsTold(hex, inst, opts, 7); OptionsTold(hex, inst, opts, 8);
  }

  /** Every setting of the device comes back by its name: what is blank is left out, but for the
      header protection key, whose blank is the zero key. */
  lemma DeviceReadsBack(hex: Hex, inst: Instance, opts: Options)
    requires ConfigLines(hex, inst, opts).Ok? && AllOneLine(ConfigLines(hex, inst, opts).value)
    ensures var conf, o := Config(hex, inst, opts).value, inst.obfuscation;
      && SaysLink(conf, hex(inst.privateKey).value, inst) && SaysJunk(conf, o) && SaysTypes(conf, o)
      && SaysOptions(conf, HeaderKey(hex, opts).value, opts)
  {
    LinkReadsBack(hex, inst, opts);
    JunkReadsBack(hex, inst, opts);
    TypesReadBack(hex, inst, opts);
    OptionsReadBack(hex, inst, opts);
  }

  lemma IfAnyTells(a: string, b: string)
    requires IfAny(a) == IfAny(b)
    ensures a == b
  {
  }

  lemma SameJunk(conf: string, a: Obfuscation20, b: Obfuscation20)
    requires SaysJunk(conf, a) && SaysJunk(conf, b)
    ensures (a.jc, a.jmin, a.jmax) == (b.jc, b.jmin, b.jmax) && (a.s1, a.s2, a.s3, a.s4) == (b.s1, b.s2, b.s3, b.s4)
  {
    DecIntInjective(a.jc, b.jc); DecIntInjective(a.jmin, b.jmin); DecIntInjective(a.jmax, b.jmax);
    DecIntInjective(a.s1, b.s1); DecIntInjective(a.s2, b.s2); DecIntInjective(a.s3, b.s3); DecIntInjective(a.s4, b.s4);
  }

  lemma SameTypes(conf: string, a: Obfuscation20, b: Obfuscation20)
    requires SaysTypes(conf, a) && SaysTypes(conf, b)
    ensures a.Headers() == b.Headers() && a.Signatures() == b.Signatures()
  {
    IfAnyTells(a.h1, b.h1); IfAnyTells(a.h2, b.h2); IfAnyTells(a.h3, b.h3); IfAnyTells(a.h4, b.h4);
    IfAnyTells(a.i1, b.i1); IfAnyTells(a.i2, b.i2); IfAnyTells(a.i3, b.i3); IfAnyTells(a.i4, b.i4);
    IfAnyTells(a.i5, b.i5);
  }

  lemma SameOptions(conf: string, hp1: string, hp2: string, a: Options, b: Options)
    requires SaysOptions(conf, hp1, a) && SaysOptions(conf, hp2, b)
    ensures hp1 == hp2 && a == b.(headerProtectionKey := a.headerProtectionKey)
  {
    IfAnyTells(a.contentPaddingAddition, b.contentPaddingAddition); IfAnyTells(a.rekeyAfterTime, b.rekeyAfterTime);
    IfAnyTells(a.rekeyTimeout, b.rekeyTimeout); IfAnyTells(a.rejectAfterTime, b.rejectAfterTime);
    IfAnyTells(a.keepaliveTimeout, b.keepaliveTimeout); IfAnyTells(a.maxHandshakeAttempts, b.maxHandshakeAttempts);
  }

  /** Equal texts configure equal devices, in everything a device is told. */
  lemma ConfigTellsDevicesApart(hex: Hex, i1: Instance, o1: Options, i2: Instance, o2: Options)
    requires Config(hex, i1, o1).Ok? && Config(hex, i1, o1) == Config(hex, i2, o2)
    requires AllOneLine(ConfigLines(hex, i1, o1).value) && AllOneLine(ConfigLines(hex, i2, o2).value)
    ensures hex(i1.privateKey) == hex(i2.privateKey) && i1.listenPort == i2.listenPort
    ensures var a, b := i1.obfuscation, i2.obfuscation;
      && (a.jc, a.jmin, a.jmax) == (b.jc, b.jmin, b.jmax) && (a.s1, a.s2, a.s3, a.s4) == (b.s1, b.s2, b.s3, b.s4)
      && a.Headers() == b.Headers() && a.Signatures() == b.Signatures()
    ensures HeaderKey(hex, o1) == HeaderKey(hex, o2) && o1 == o2.(headerProtectionKey := o1.headerProtectionKey)
    ensures Views(hex, i1.peers) == Views(hex, i2.peers)
  {
    var conf := Config(hex, i1, o1).value;
    DeviceReadsBack(hex, i1, o1);
    DeviceReadsBack(hex, i2, o2);
    DecIntInjective(i1.listenPort, i2.listenPort);
    SameJunk(conf, i1.obfuscation, i2.obfuscation);
    SameTypes(conf, i1.obfuscation, i2.obfuscation);
    SameOptions(conf, HeaderKey(hex, o1).value, HeaderKey(hex, o2).value, o1, o2);
    ConfigTellsPeersApart(hex, i1, o1, i2, o2);
  }
}
