/** AmneziaWG's obfuscation parameters: what the validators accept, and that every parameter
    set the generator can draw is accepted by all of them. */
module Params {
  import opened Text
  import opened Amnezia

  const AWG_H_MAX := 0x7fff_ffff
  const H_MAX_VALID := 0xffff_ffff
  const CPA_MAX_VALID := 65535
  const HEADER_PROTECTION_MIN_PADDING := 12
  const MAX_SERVER_S1 := 1700 - 148
  const MAX_SERVER_S2 := 1700 - 92
  const MAX_SERVER_S3 := 1700 - 64
  const MAX_JUNK_PACKETS := 128
  const MAX_PREAMBLE_PACKET := 65535

  // ---------------------------------------------------------------------------
  // Ranges
  // ---------------------------------------------------------------------------

  /** parseUintRange: "N" or "low-high"; bounds are not checked. */
  function ParseUintRange(text: string): Option<(int, int)> {
    var v := TrimSpace(text);
    if v == "" then None
    else
      var cut := Cut(v, "-");
      if cut.Some? then
        var l, h := ParseInt(TrimSpace(cut.value.0)), ParseInt(TrimSpace(cut.value.1));
        if l.None? || h.None? then None else Some((l.value, h.value))
      else
        var n := ParseInt(v);
        if n.None? then None else Some((n.value, n.value))
  }

  /** validateRangeValue. */
  predicate ValidRangeValue(text: string, max: int) {
    var v := TrimSpace(text);
    v == "" ||
      var cut := Cut(v, "-");
      if cut.Some? then
        var l, h := ParseInt(TrimSpace(cut.value.0)), ParseInt(TrimSpace(cut.value.1));
        l.Some? && h.Some? && 0 <= l.value && h.value <= max && l.value <= h.value
      else
        var n := ParseInt(v); n.Some? && 0 <= n.value <= max
  }

  /** The validator accepts a value just when it is blank or parses to bounds in order. */
  lemma ValidRangeIff(text: string, max: int)
    ensures var r := ParseUintRange(text);
      ValidRangeValue(text, max) <==> TrimSpace(text) == "" || (r.Some? && 0 <= r.value.0 <= r.value.1 <= max)
  {
  }

  function Range(lo: nat, hi: nat): string { Dec(lo) + "-" + Dec(hi) }

  /** A printed range reads back as its bounds. */
  lemma RangeParses(lo: nat, hi: nat)
    requires lo <= hi <= MAX_INT64
    ensures ParseUintRange(Range(lo, hi)) == Some((lo, hi)) && TrimSpace(Range(lo, hi)) != ""
  {
    var v := Range(lo, hi);
    assert v[0] == Dec(lo)[0] && v[|v| - 1] == Dec(hi)[|Dec(hi)| - 1];
    TrimPlain(v);
    CutAt(Dec(lo), "-", Dec(hi));
    TrimDigits(Dec(lo));
    TrimDigits(Dec(hi));
    ParseDec(lo);
    ParseDec(hi);
  }

  /** A printed single value reads back as a range of one. */
  lemma SingleParses(n: nat)
    requires n <= MAX_INT64
    ensures ParseUintRange(Dec(n)) == Some((n, n)) && TrimSpace(Dec(n)) != ""
  {
    TrimDigits(Dec(n));
    ParseDec(n);
    IndexAbsent(Dec(n), "-");
  }

  // ---------------------------------------------------------------------------
  // H1-H4
  // ---------------------------------------------------------------------------

  /** The packet type values slot i stands for; a blank slot keeps WireGuard's own type. */
  function Bounds(hs: seq<string>, i: nat): (int, int)
    requires i < |hs|
  {
    var r := ParseUintRange(hs[i]); if r.None? then (i + 1, i + 1) else r.value
  }

  predicate Overlap(a: (int, int), b: (int, int)) { a.0 <= b.1 && b.0 <= a.1 }

  predicate NoOverlap(hs: seq<string>) {
    forall i, j :: 0 <= i < j < |hs| ==> !Overlap(Bounds(hs, i), Bounds(hs, j))
  }

  predicate Within(t: int, r: (int, int)) { r.0 <= t <= r.1 }

  /** Ranges in order overlap just when some packet type falls in both. */
  lemma OverlapIff(a: (int, int), b: (int, int))
    requires a.0 <= a.1 && b.0 <= b.1
    ensures Overlap(a, b) <==> exists t :: Within(t, a) && Within(t, b)
  {
    var t := if a.0 <= b.0 then b.0 else a.0;
    assert Overlap(a, b) ==> Within(t, a) && Within(t, b);
  }

  /** validateHNoOverlap. */
  method ValidateHNoOverlap(hs: seq<string>) returns (ok: bool)
    ensures ok <==> NoOverlap(hs)
  {
    var bounds := ParseBounds(hs);
    ok := AllApart(bounds);
    assert forall i, j :: 0 <= i < j < |hs| ==> Overlap(bounds[i], bounds[j]) == Overlap(Bounds(hs, i), Bounds(hs, j));
  }

  method ParseBounds(hs: seq<string>) returns (bounds: seq<(int, int)>)
    ensures |bounds| == |hs| && forall k :: 0 <= k < |hs| ==> bounds[k] == Bounds(hs, k)
  {
    bounds := [];
    for i := 0 to |hs|
      invariant |bounds| == i && forall k :: 0 <= k < i ==> bounds[k] == Bounds(hs, k)
    {
      var r := ParseUintRange(hs[i]);
      bounds := bounds + [if r.None? then (i + 1, i + 1) else r.value];
    }
  }

  method AllApart(bounds: seq<(int, int)>) returns (ok: bool)
    ensures ok <==> forall i, j :: 0 <= i < j < |bounds| ==> !Overlap(bounds[i], bounds[j])
  {
    for i := 0 to |bounds|
      invariant forall k, l :: 0 <= k < i && k < l < |bounds| ==> !Overlap(bounds[k], bounds[l])
    {
      for j := i + 1 to |bounds|
        invariant forall l :: i < l < j ==> !Overlap(bounds[i], bounds[l])
      {
        if Overlap(bounds[i], bounds[j]) {
          return false;
        }
      }
    }
    ok := true;
  }

  // ---------------------------------------------------------------------------
  // Signature packets
  // ---------------------------------------------------------------------------

  const TAGS := {"b", "t", "r", "rc", "rd", "d", "ds", "dz"}

  /** What the next bracket of a spec holds. */
  datatype NextTag = NoTag | Unclosed | Tag(fields: seq<string>, more: string)

  function Next(s: string): (r: NextTag)
    ensures r.Tag? ==> |r.more| < |s|
  {
    var start := Index(s, "<");
    if start < 0 then NoTag
    else
      var rest := s[start..];
      var end := Index(rest, ">");
      if end < 0 then Unclosed
      else
        assert rest[0] == '<' && rest[end..][0] == '>';
        Tag(Fields(rest[1..end]), rest[end + 1..])
  }

  /** The fields of each <...> in order; None when a bracket is not closed. */
  function Tags(s: string): Option<seq<seq<string>>>
    decreases |s|
  {
    match Next(s)
    case NoTag => Some([])
    case Unclosed => None
    case Tag(fields, more) => if Tags(more).None? then None else Some([fields] + Tags(more).value)
  }

  /** The bytes one tag adds to the packet, None for a tag the device would refuse. */
  function TagSize(fields: seq<string>): Option<nat> {
    if fields == [] || fields[0] !in TAGS then None
    else if fields[0] in {"r", "rc", "rd", "dz"} then
      var n := if |fields| == 2 then ParseInt(fields[1]) else None;
      if n.None? || n.value < 0 || n.value > MAX_PREAMBLE_PACKET then None else Some(n.value)
    else if fields[0] == "b" then
      Some(if |fields| != 2 then 0 else if "0x" <= fields[1] then (|fields[1]| - 2) / 2 else |fields[1]| / 2)
    else if fields[0] == "t" then Some(4)
    else Some(0)
  }

  /** The bytes the packet takes, None when a tag would be refused. */
  function PacketSize(tags: seq<seq<string>>): Option<nat> {
    if tags == [] then Some(0)
    else
      var first, rest := TagSize(tags[0]), PacketSize(tags[1..]);
      if first.None? || rest.None? then None else Some(first.value + rest.value)
  }

  predicate Fits(s: string, total: nat) {
    Tags(s).Some? && PacketSize(Tags(s).value).Some? && total + PacketSize(Tags(s).value).value <= MAX_PREAMBLE_PACKET
  }

  /** Blank, or every tag known and the packet within one datagram. */
  predicate ValidChain(spec: string) { TrimSpace(spec) == "" || Fits(spec, 0) }

  /** validateObfChain. Refusing as soon as the running total is too large is the same as
      bounding the whole packet. */
  method ValidateObfChain(spec: string) returns (ok: bool)
    ensures ok <==> ValidChain(spec)
  {
    if TrimSpace(spec) == "" {
      return true;
    }
    var remaining, total := spec, 0;
    while true
      invariant 0 <= total <= MAX_PREAMBLE_PACKET
      invariant Fits(remaining, total) <==> Fits(spec, 0)
      decreases |remaining|
    {
      var next := Next(remaining);
      if next.NoTag? {
        return true;
      }
      FitsStep(remaining, total);
      if next.Unclosed? || TagSize(next.fields).None? {
        return false;
      }
      total := total + TagSize(next.fields).value;
      if total > MAX_PREAMBLE_PACKET {
        return false;
      }
      remaining := next.more;
    }
  }

  lemma FitsStep(s: string, total: nat)
    ensures Next(s).Unclosed? ==> !Fits(s, total)
    ensures Next(s).Tag? ==>
      (Fits(s, total) <==> TagSize(Next(s).fields).Some? && Fits(Next(s).more, total + TagSize(Next(s).fields).value))
  {
    if Next(s).Tag? && Tags(Next(s).more).Some? {
      PacketCons(Next(s).fields, Tags(Next(s).more).value);
    }
  }

  lemma PacketCons(fields: seq<string>, rest: seq<seq<string>>)
    ensures PacketSize([fields] + rest) ==
      if TagSize(fields).None? || PacketSize(rest).None? then None
      else Some(TagSize(fields).value + PacketSize(rest).value)
  {
    assert ([fields] + rest)[0] == fields && ([fields] + rest)[1..] == rest;
  }

  function RandomBody(n: nat): string { "r " + Dec(n) }

  function RandomTag(n: nat): string { "<" + RandomBody(n) + ">" }

  lemma RandomTagFields(n: nat)
    ensures Fields("r " + Dec(n)) == ["r", Dec(n)]
  {
    var digits := Dec(n);
    var s := "r " + digits;
    assert s[0] == 'r' && s[1] == ' ' && s[1..] == " " + digits && s[2..] == digits;
    assert s[1..][1..] == digits;
    assert forall i :: 0 <= i < |digits| ==> '0' <= digits[i] <= '9';
    WordPlain(digits);
    assert Word(s[1..]) == "";
    assert Word(s) == "r";
    assert TrimLeft(s[1..]) == digits && digits[|digits|..] == "";
    var none: seq<string> := [];
    assert Fields("") == none;
    assert Fields(s[1..]) == [digits] + Fields(digits[|digits|..]);
  }

  /** The next bracket opens at the first `<` and closes at the first `>` after it. */
  lemma NextIs(before: string, body: string, more: string)
    requires '<' !in before && '>' !in body
    ensures Next(before + ("<" + body + (">" + more))) == Tag(Fields(body), more)
  {
    var rest := "<" + body + (">" + more);
    OpensAt(before, rest);
    assert (before + rest)[|before|..] == rest;
    ClosesAt(body, more);
  }

  lemma ClosesAt(body: string, more: string)
    requires '>' !in body
    ensures var rest, end := "<" + body + (">" + more), |body| + 1;
      Index(rest, ">") == end && rest[1..end] == body && rest[end + 1..] == more
  {
    var rest, end := "<" + body + (">" + more), |body| + 1;
    forall j | 0 <= j < end ensures !(">" <= rest[j..]) {
      assert rest[j..][0] == rest[j] && rest[0] == '<';
      assert j >= 1 ==> rest[j] == body[j - 1];
    }
    assert rest[end..] == ">" + more;
    IndexIs(rest, ">", end);
  }

  lemma OpensAt(before: string, rest: string)
    requires '<' !in before && "<" <= rest
    ensures Index(before + rest, "<") == |before|
  {
    var s := before + rest;
    assert s[|before|..] == rest;
    forall j | 0 <= j < |before| ensures !("<" <= s[j..]) {
      assert s[j..][0] == before[j];
    }
    IndexIs(s, "<", |before|);
  }

  /** Without a bracket there is no tag, and one that does not close is an error. */
  lemma NextEnds(before: string, body: string)
    requires '<' !in before && '>' !in body
    ensures Next(before) == NoTag && Next(before + ("<" + body)) == Unclosed
  {
    IndexAbsent(before, "<");
    OpensAt(before, "<" + body);
    assert (before + ("<" + body))[|before|..] == "<" + body;
    assert '>' !in "<" + body;
    IndexAbsent("<" + body, ">");
  }

  /** What the tags of a signature packet come to: random bytes and digits by their number, given
      bytes by their digits, a time stamp by four, data by nothing; any other tag is refused. */
  lemma TagSizes(n: nat, hex: string, name: string, fields: seq<string>)
    requires !("0x" <= hex)
    ensures var size := if n <= 65535 then Some(n) else None;
      TagSize(["r", Dec(n)]) == TagSize(["rc", Dec(n)]) == TagSize(["rd", Dec(n)]) == TagSize(["dz", Dec(n)]) == size
    ensures TagSize(["b", hex]) == TagSize(["b", "0x" + hex]) == Some(|hex| / 2)
    ensures TagSize(["t"] + fields) == Some(4) && TagSize(["d"] + fields) == TagSize(["ds"] + fields) == Some(0)
    ensures name !in {"b", "t", "r", "rc", "rd", "d", "ds", "dz"} ==> TagSize([name] + fields) == None
  {
    Numbered("r", n);
    Numbered("rc", n);
    Numbered("rd", n);
    Numbered("dz", n);
    assert ("0x" + hex)[2..] == hex;
  }

  lemma Numbered(name: string, n: nat)
    requires name in {"r", "rc", "rd", "dz"}
    ensures TagSize([name, Dec(n)]) == if n <= 65535 then Some(n) else None
  {
    if n <= MAX_INT64 {
      ParseDec(n);
    } else {
      ValueDec(n);
      assert '0' <= Dec(n)[0] <= '9';
    }
  }

  lemma NextOfOne(body: string)
    requires '>' !in body
    ensures Next("<" + body + ">") == Tag(Fields(body), "")
  {
    NextIs("", body, "");
    Grouped("<", body, ">");
  }

  lemma Grouped(a: string, b: string, c: string)
    ensures "" + (a + b + (c + "")) == a + b + c
  {
  }

  lemma OneTagFits(fields: seq<string>, s: string)
    requires Next(s) == Tag(fields, "") && TagSize(fields).Some? && TagSize(fields).value <= MAX_PREAMBLE_PACKET
    ensures ValidChain(s)
  {
    IndexAbsent("", "<");
    OneTag(fields);
    assert Tags("") == Some([]);
    assert Tags(s) == Some([fields] + []);
    assert [fields] + [] == [fields];
  }

  lemma RandomBodyPlain(n: nat)
    ensures '>' !in RandomBody(n)
  {
    var body, digits := RandomBody(n), Dec(n);
    forall i | 0 <= i < |body| ensures body[i] != '>' {
      assert i >= 2 ==> body[i] == digits[i - 2];
    }
  }

  lemma RandomTagNext(n: nat)
    ensures Next(RandomTag(n)) == Tag(["r", Dec(n)], "")
  {
    RandomBodyPlain(n);
    RandomTagFields(n);
    NextOfOne(RandomBody(n));
  }

  /** A signature packet of n random bytes is accepted up to one datagram. */
  lemma RandomTagFits(n: nat)
    requires n <= MAX_PREAMBLE_PACKET
    ensures ValidChain(RandomTag(n))
  {
    RandomTagNext(n);
    ParseDec(n);
    RandomSize(Dec(n), n);
    OneTagFits(["r", Dec(n)], RandomTag(n));
  }

  lemma RandomSize(digits: string, n: nat)
    requires ParseInt(digits) == Some(n) && n <= MAX_PREAMBLE_PACKET
    ensures TagSize(["r", digits]) == Some(n)
  {
  }

  lemma OneTag(fields: seq<string>)
    ensures PacketSize([fields]) == TagSize(fields)
  {
    assert [fields][1..] == [] && PacketSize([]) == Some(0);
  }

  // ---------------------------------------------------------------------------
  // The validators
  // ---------------------------------------------------------------------------

  /** ValidateHandshakePreamble. */
  predicate ValidPreamble(o: Obfuscation20) {
    && o.jmin <= o.jmax
    && 0 <= o.jc <= MAX_JUNK_PACKETS && 0 <= o.jmin <= MAX_PREAMBLE_PACKET && 0 <= o.jmax <= MAX_PREAMBLE_PACKET
    && forall s :: s in o.Signatures() ==> ValidChain(s)
  }

  predicate NoControl(v: string) { forall i :: 0 <= i < |v| ==> v[i] >= ' ' && v[i] != '\U{7f}' }

  /** validateHeaderProtectionKey; `decoded` is the byte length base64 decodes to. */
  predicate ValidHeaderKey(decoded: string -> Option<nat>, v: string) {
    v == "" || (NoControl(v) && decoded(v) == Some(32))
  }

  /** ValidateObfuscation. */
  predicate ValidObfuscation(decoded: string -> Option<nat>, o: Obfuscation20) {
    && ValidPreamble(o)
    && 0 <= o.s1 <= 65535 && 0 <= o.s2 <= 65535 && 0 <= o.s3 <= 65535 && 0 <= o.s4 <= 32
    && o.s1 + 56 != o.s2
    && (forall h :: h in o.Headers() ==> ValidRangeValue(h, H_MAX_VALID))
    && NoOverlap(o.Headers())
    && ValidHeaderKey(decoded, o.headerProtectionKey)
  }

  /** ValidateServerObfuscation. */
  predicate ValidServer(decoded: string -> Option<nat>, o: Obfuscation20) {
    ValidObfuscation(decoded, o) && o.s1 <= MAX_SERVER_S1 && o.s2 <= MAX_SERVER_S2 && o.s3 <= MAX_SERVER_S3
  }

  /** ValidateHeaderProtection. */
  predicate ValidHeaderProtection(key: string, o: Obfuscation20) {
    key == "" || forall s :: s in [o.s1, o.s2, o.s3, o.s4] ==> s >= HEADER_PROTECTION_MIN_PADDING
  }

  /** ValidateAwgTimerValue together with ValidateAwgTimerNonZero. */
  predicate ValidTimer(v: string) {
    ValidRangeValue(v, H_MAX_VALID) && ParseUintRange(v) != Some((0, 0))
  }

  /** ValidateAwgRekeyBeforeReject; a blank side keeps WireGuard's own default. */
  predicate RekeyBeforeReject(rekey: string, reject: string) {
    var r, j := ParseUintRange(rekey), ParseUintRange(reject);
    (rekey == "" && reject == "") || (if r.Some? then r.value.1 else 120) < (if j.Some? then j.value.0 else 180)
  }

  predicate ValidTimers(rekey: string, retry: string, reject: string, keepalive: string, attempts: string) {
    && ValidTimer(rekey) && ValidTimer(retry) && ValidTimer(reject) && ValidTimer(keepalive) && ValidTimer(attempts)
    && RekeyBeforeReject(rekey, reject)
  }

  /** Everything an inbound is checked for before it is saved. */
  predicate Saveable(decoded: string -> Option<nat>, o: Obfuscation20) {
    && ValidServer(decoded, o)
    && ValidHeaderProtection(o.headerProtectionKey, o)
    && ValidRangeValue(o.contentPaddingAddition, CPA_MAX_VALID)
    && ValidTimers(o.rekeyAfterTime, o.rekeyTimeout, o.rejectAfterTime, o.keepaliveTimeout, o.maxHandshakeAttempts)
  }

  /** The bytes of WireGuard's own handshake messages. */
  const INITIATION := 148
  const RESPONSE := 92
  const COOKIE := 64

  /** What the size checks come to: no padding is negative, every padded message fits the device's
      buffer of 1700 bytes, a padded initiation is never as long as a padded response, and the padding
      of data leaves the embedded device its room. */
  lemma ServerSizesIff(decoded: string -> Option<nat>, o: Obfuscation20)
    ensures ValidServer(decoded, o) <==>
      && ValidPreamble(o) && (forall h :: h in o.Headers() ==> ValidRangeValue(h, H_MAX_VALID))
      && NoOverlap(o.Headers()) && ValidHeaderKey(decoded, o.headerProtectionKey)
      && (forall s :: s in [o.s1, o.s2, o.s3, o.s4] ==> s >= 0) && o.s4 <= 32
      && INITIATION + o.s1 <= 1700 && RESPONSE + o.s2 <= 1700 && COOKIE + o.s3 <= 1700
      && INITIATION + o.s1 != RESPONSE + o.s2
  {
    var ss := [o.s1, o.s2, o.s3, o.s4];
    assert ss[0] in ss && ss[1] in ss && ss[2] in ss && ss[3] in ss;
  }

  /** The preamble is bounded: at most 128 junk packets, each within one datagram, and no signature
      packet longer than one. */
  lemma PreambleBounded(o: Obfuscation20, n: int, k: nat)
    requires ValidPreamble(o) && o.jmin <= n <= o.jmax && k < 5
    ensures 0 <= o.jc <= 128 && 0 <= n <= 65535
    ensures var sig := o.Signatures()[k];
      TrimSpace(sig) == "" || (Tags(sig).Some? && PacketSize(Tags(sig).value).Some? &&
                               PacketSize(Tags(sig).value).value <= 65535)
  {
    assert o.Signatures()[k] in o.Signatures();
  }

  /** Header protection takes its nonce from twelve bytes of every padding. */
  lemma ProtectionNeedsPadding(key: string, o: Obfuscation20)
    ensures ValidHeaderProtection(key, o) <==>
      key == "" || (o.s1 >= 12 && o.s2 >= 12 && o.s3 >= 12 && o.s4 >= 12)
  {
    var ss := [o.s1, o.s2, o.s3, o.s4];
    assert ss[0] in ss && ss[1] in ss && ss[2] in ss && ss[3] in ss;
  }

  /** A timer is blank, or a window of values that the device can hold and that is not just zero. */
  lemma ValidTimerIff(v: string)
    ensures var r := ParseUintRange(v);
      ValidTimer(v) <==>
        TrimSpace(v) == "" || (r.Some? && 0 <= r.value.0 <= r.value.1 <= 0xffff_ffff && r.value.1 > 0)
  {
    ValidRangeIff(v, H_MAX_VALID);
  }

  /** Whatever instants two saved windows allow, the rekey comes before the reject. */
  lemma RekeyComesFirst(rekey: string, reject: string, r: (int, int), j: (int, int), t: int, u: int)
    requires RekeyBeforeReject(rekey, reject) && ParseUintRange(rekey) == Some(r) && ParseUintRange(reject) == Some(j)
    requires r.0 <= t <= r.1 && j.0 <= u <= j.1
    ensures t < u
  {
    assert TrimSpace("") == "";
  }

  /** In a saveable set no packet type belongs to two of the four headers, default types of
      blank slots included. */
  lemma HeadersTellApart(decoded: string -> Option<nat>, o: Obfuscation20, i: nat, j: nat, t: int)
    requires ValidObfuscation(decoded, o) && i < 4 && j < 4
    requires Within(t, Bounds(o.Headers(), i)) && Within(t, Bounds(o.Headers(), j))
    ensures i == j
  {
    var hs := o.Headers();
    assert hs[i] in hs && hs[j] in hs;
    ValidRangeIff(hs[i], H_MAX_VALID);
    ValidRangeIff(hs[j], H_MAX_VALID);
    OverlapIff(Bounds(hs, i), Bounds(hs, j));
    OverlapIff(Bounds(hs, j), Bounds(hs, i));
  }

  // ---------------------------------------------------------------------------
  // The generator
  // ---------------------------------------------------------------------------

  /** What the random source gives, draw by draw; None is its error. */
  type Raw = nat -> Option<nat>

  /** The draw at a place of the source. */
  function Draw(raw: Raw, at: nat, min: int, max: int): (r: int)
    ensures if max <= min then r == min else min <= r <= max
  {
    if max <= min || raw(at).None? then min else min + raw(at).value % (max - min + 1)
  }

  class Random {
    const raw: Raw
    var at: nat

    constructor (raw: Raw)
      ensures this.raw == raw && at == 0
    {
      this.raw, at := raw, 0;
    }

    /** randInt: a uniform value of the range, or min when the source fails. */
    method RandInt(min: int, max: int) returns (r: int)
      modifies this
      ensures r == Draw(raw, old(at), min, max) && at == old(at) + if max <= min then 0 else 1
    {
      if max <= min {
        return min;
      }
      var n := raw(at);
      at := at + 1;
      if n.None? {
        return min;
      }
      r := min + n.value % (max - min + 1);
    }
  }

  const BAND_SIZE := (AWG_H_MAX - 5 + 1) / 4

  predicate InBand(n: int, i: nat) { 5 + i * BAND_SIZE <= n <= 5 + i * BAND_SIZE + BAND_SIZE - 1 }

  function HeaderAt(raw: Raw, at: nat, i: nat): (n: nat)
    requires i < 4
    ensures InBand(n, i)
  {
    Draw(raw, at + i, 5 + i * BAND_SIZE, 5 + i * BAND_SIZE + BAND_SIZE - 1)
  }

  /** generateHValues, as numbers. */
  method GenerateHValues(random: Random) returns (hs: seq<nat>)
    modifies random
    ensures hs == HeadersAt(random.raw, old(random.at)) && random.at == old(random.at) + 4
  {
    hs := [];
    for i := 0 to 4
      invariant |hs| == i && forall k :: 0 <= k < i ==> hs[k] == HeaderAt(random.raw, old(random.at), k)
      invariant random.at == old(random.at) + i
    {
      var bandLo := 5 + i * BAND_SIZE;
      var n := random.RandInt(bandLo, bandLo + BAND_SIZE - 1);
      hs := hs + [n];
    }
  }

  function HeadersAt(raw: Raw, at: nat): seq<nat> {
    [HeaderAt(raw, at, 0), HeaderAt(raw, at, 1), HeaderAt(raw, at, 2), HeaderAt(raw, at, 3)]
  }

  lemma BandBounds(hs: seq<string>, i: nat, n: nat)
    requires i < |hs| && i < 4 && InBand(n, i) && hs[i] == Dec(n)
    ensures 5 <= n <= AWG_H_MAX && Bounds(hs, i) == (n, n) && ValidRangeValue(hs[i], H_MAX_VALID)
  {
    SingleValid(n, H_MAX_VALID);
    BoundsOf(hs, i, (n, n));
  }

  lemma SingleValid(n: nat, max: int)
    requires n <= max <= MAX_INT64
    ensures ParseUintRange(Dec(n)) == Some((n as int, n as int)) && ValidRangeValue(Dec(n), max)
  {
    SingleParses(n);
    ValidRangeIff(Dec(n), max);
  }

  lemma BoundsOf(hs: seq<string>, i: nat, r: (int, int))
    requires i < |hs| && ParseUintRange(hs[i]) == Some(r)
    ensures Bounds(hs, i) == r
  {
  }

  lemma Multiples(size: nat, i: nat, j: nat)
    requires i < j
    ensures i * size + size <= j * size
  {
    assert j * size == i * size + size + (j - i - 1) * size;
  }

  lemma BandsOrdered(n: nat, m: nat, i: nat, j: nat)
    requires InBand(n, i) && InBand(m, j) && i < j < 4
    ensures !Overlap((n, n), (m, m))
  {
    Multiples(BAND_SIZE, i, j);
    assert n < m;
  }

  /** One value from each band: valid, distinct, above the vanilla types 1 to 4 and within
      2^31-1. */
  lemma BandsApart(hs: seq<string>, ns: seq<nat>)
    requires |hs| == |ns| == 4 && forall i :: 0 <= i < 4 ==> InBand(ns[i], i) && hs[i] == Dec(ns[i])
    ensures NoOverlap(hs) && forall h :: h in hs ==> ValidRangeValue(h, H_MAX_VALID)
    ensures forall i :: 0 <= i < 4 ==> 5 <= ns[i] <= AWG_H_MAX && Bounds(hs, i) == (ns[i], ns[i])
  {
    forall i | 0 <= i < 4
      ensures 5 <= ns[i] <= AWG_H_MAX && Bounds(hs, i) == (ns[i], ns[i]) && ValidRangeValue(hs[i], H_MAX_VALID) {
      assert InBand(ns[i], i);
      BandBounds(hs, i, ns[i]);
    }
    forall i, j | 0 <= i < j < 4 ensures !Overlap(Bounds(hs, i), Bounds(hs, j)) {
      assert InBand(ns[i], i) && InBand(ns[j], j);
      BandsOrdered(ns[i], ns[j], i, j);
    }
  }

  function SignaturesAt(raw: Raw, at: nat): seq<nat> {
    [Draw(raw, at, 32, 256), Draw(raw, at + 1, 32, 256), Draw(raw, at + 2, 32, 256), Draw(raw, at + 3, 32, 256),
     Draw(raw, at + 4, 32, 256)]
  }

  /** The sizes of the five signature packets. */
  method GenerateSignatures(random: Random) returns (sizes: seq<nat>)
    modifies random
    ensures sizes == SignaturesAt(random.raw, old(random.at)) && random.at == old(random.at) + 5
  {
    sizes := [];
    for i := 0 to 5
      invariant |sizes| == i && random.at == old(random.at) + i
      invariant forall k :: 0 <= k < i ==> sizes[k] == Draw(random.raw, old(random.at) + k, 32, 256)
    {
      var n := random.RandInt(32, 256);
      sizes := sizes + [n];
    }
  }

  lemma SignatureValid(s: string)
    requires RandomSignature(s)
    ensures ValidChain(s)
  {
    var n: nat :| s == RandomTag(n) && 32 <= n <= 256;
    RandomTagFits(n);
  }

  /** A window, printed "lo-hi". */
  datatype Span = Span(lo: nat, hi: nat) {
    function Show(): string { Range(lo, hi) }

    predicate Within(minLo: int, maxLo: int, minW: int, maxW: int) {
      minLo <= lo <= maxLo && lo + minW <= hi <= lo + maxW
    }
  }

  /** lo is drawn from [minLo, maxLo] and the width from [minW, maxW]. */
  function SpanAt(raw: Raw, at: nat, minLo: nat, maxLo: nat, minW: nat, maxW: nat): (s: Span)
    requires minLo <= maxLo && minW <= maxW
    ensures s.Within(minLo, maxLo, minW, maxW)
  {
    var lo := Draw(raw, at, minLo, maxLo); Span(lo, lo + Draw(raw, at + 1, minW, maxW))
  }

  method GenerateWindow(random: Random, minLo: nat, maxLo: nat, minW: nat, maxW: nat) returns (s: Span)
    requires minLo < maxLo && minW < maxW
    modifies random
    ensures s == SpanAt(random.raw, old(random.at), minLo, maxLo, minW, maxW) && random.at == old(random.at) + 2
  {
    var lo := random.RandInt(minLo, maxLo);
    var w := random.RandInt(minW, maxW);
    s := Span(lo, lo + w);
  }

  lemma WindowValid(v: string, minLo: nat, maxLo: nat, minW: nat, maxW: nat, max: nat)
    requires Window(v, minLo, maxLo, minW, maxW) && 0 < minLo && maxLo + maxW <= max <= H_MAX_VALID
    ensures ValidRangeValue(v, max) && ValidTimer(v)
  {
    var s: Span :| v == s.Show() && s.Within(minLo, maxLo, minW, maxW);
    RangeParses(s.lo, s.hi);
    ValidRangeIff(v, max);
    ValidRangeIff(v, H_MAX_VALID);
  }

  /** The earliest reject comes at least 30 seconds after the latest rekey. */
  lemma RekeyWindowsValid(rekey: string, reject: string)
    requires RekeyWindows(rekey, reject)
    ensures ValidTimer(rekey) && ValidTimer(reject) && RekeyBeforeReject(rekey, reject)
  {
    var s: Span, r: Span :| rekey == s.Show() && reject == r.Show() && RekeySpans(s, r);
    assert Window(rekey, 100, 120, 10, 40) && Window(reject, s.hi + 30, s.hi + 60, 30, 90);
    WindowValid(rekey, 100, 120, 10, 40, H_MAX_VALID);
    WindowValid(reject, s.hi + 30, s.hi + 60, 30, 90, H_MAX_VALID);
    RangeParses(s.lo, s.hi);
    RangeParses(r.lo, r.hi);
  }

  /** Drawn here, S2 makes the padded handshake packets equally long. */
  predicate Clashes(raw: Raw, q: nat, s1: int) { Draw(raw, q, 15, 150) == s1 + 56 }

  /** How often S2 is drawn again from this place on: while it clashes, and not more than `patience`
      times. */
  function Redraws(raw: Raw, at: nat, s1: int, patience: nat): (k: nat)
    ensures k <= patience && (k < patience ==> !Clashes(raw, at + k, s1))
    ensures forall q :: at <= q < at + k ==> Clashes(raw, q, s1)
    decreases patience
  {
    if patience == 0 || !Clashes(raw, at, s1) then 0 else 1 + Redraws(raw, at + 1, s1, patience - 1)
  }

  lemma RedrawsIs(raw: Raw, at: nat, s1: int, patience: nat, k: nat)
    requires k <= patience && (k < patience ==> !Clashes(raw, at + k, s1))
    requires forall q :: at <= q < at + k ==> Clashes(raw, q, s1)
    ensures Redraws(raw, at, s1, patience) == k
  {
    var here, there := at + Redraws(raw, at, s1, patience), at + k;
    assert Clashes(raw, here, s1) || !Clashes(raw, here, s1);
    assert Clashes(raw, there, s1) || !Clashes(raw, there, s1);
  }

  /** S1 and S2, and the place of the source after them. */
  datatype Paddings = Paddings(s1: nat, s2: nat, place: nat)

  function PaddingsAt(raw: Raw, at: nat, patience: nat): Paddings {
    var s1 := Draw(raw, at, 15, 150);
    var k := Redraws(raw, at + 1, s1, patience);
    Paddings(s1, Draw(raw, at + 1 + k, 15, 150), at + 2 + k)
  }

  method GeneratePaddings(random: Random, patience: nat) returns (p: Paddings)
    modifies random
    ensures p == PaddingsAt(random.raw, old(random.at), patience) && random.at == p.place
  {
    var s1 := random.RandInt(15, 150);
    ghost var first := random.at;
    var s2 := random.RandInt(15, 150);
    var tries := 0;
    while s1 + 56 == s2 && tries < patience
      invariant tries <= patience && random.at == first + 1 + tries
      invariant s2 == Draw(random.raw, first + tries, 15, 150)
      invariant forall q :: first <= q < first + tries ==> Clashes(random.raw, q, s1)
      decreases patience - tries
    {
      s2 := random.RandInt(15, 150);
      tries := tries + 1;
    }
    assert Clashes(random.raw, first + tries, s1) <==> s1 + 56 == s2;
    RedrawsIs(random.raw, first, s1, patience, tries);
    p := Paddings(s1, s2, random.at);
  }

  /** Draws the junk parameters take. */
  function JunkDraws(preset: string): nat { if preset == "mobile" then 2 else 3 }

  datatype Junk = Junk(jc: nat, jmin: nat, jmax: nat)

  function JunkAt(preset: string, raw: Raw, at: nat): (j: Junk)
    ensures DrawnJunk(preset == "mobile", j.jc, j.jmin, j.jmax)
  {
    if preset == "mobile" then
      var jmin := Draw(raw, at, 30, 50);
      Junk(3, jmin, jmin + Draw(raw, at + 1, 20, 80))
    else
      var jmin := Draw(raw, at + 1, 40, 89);
      Junk(Draw(raw, at, 3, 6), jmin, jmin + Draw(raw, at + 2, 50, 250))
  }

  method GenerateJunk(random: Random, preset: string) returns (j: Junk)
    modifies random
    ensures j == JunkAt(preset, random.raw, old(random.at)) && random.at == old(random.at) + JunkDraws(preset)
  {
    if preset == "mobile" {
      var jmin := random.RandInt(30, 50);
      var w := random.RandInt(20, 80);
      j := Junk(3, jmin, jmin + w);
    } else {
      var jc := random.RandInt(3, 6);
      var jmin := random.RandInt(40, 89);
      var w := random.RandInt(50, 250);
      j := Junk(jc, jmin, jmin + w);
    }
  }

  /** A window "lo-hi", lo and its width from these ranges. */
  ghost predicate Window(v: string, minLo: int, maxLo: int, minW: int, maxW: int) {
    exists s: Span :: v == s.Show() && s.Within(minLo, maxLo, minW, maxW)
  }

  /** The reject window starts at least half a minute after the rekey window has ended. */
  ghost predicate RekeyWindows(rekey: string, reject: string) {
    exists s: Span, r: Span :: rekey == s.Show() && reject == r.Show() && RekeySpans(s, r)
  }

  predicate RekeySpans(rekey: Span, reject: Span) {
    rekey.Within(100, 120, 10, 40) && reject.Within(rekey.hi + 30, rekey.hi + 60, 30, 90)
  }

  ghost predicate RandomSignature(s: string) { exists n: nat :: s == RandomTag(n) && 32 <= n <= 256 }

  ghost predicate BandHeader(h: string, i: nat) { exists n: nat :: h == Dec(n) && InBand(n, i) }

  predicate DrawnJunk(mobile: bool, jc: int, jmin: int, jmax: int) {
    if mobile then jc == 3 && 30 <= jmin <= 50 && jmin + 20 <= jmax <= jmin + 80
    else 3 <= jc <= 6 && 40 <= jmin <= 89 && jmin + 50 <= jmax <= jmin + 250
  }

  /** Every field comes from its own range. */
  ghost predicate Drawn(preset: string, key: string, o: Obfuscation20) {
    && PartsDrawn(preset, key, o)
    && BandHeader(o.h1, 0) && BandHeader(o.h2, 1) && BandHeader(o.h3, 2) && BandHeader(o.h4, 3)
    && (forall s :: s in o.Signatures() ==> RandomSignature(s))
  }

  /** The parts of a draw that say where they come from. */
  ghost predicate PartsDrawn(preset: string, key: string, o: Obfuscation20) {
    && DrawnJunk(preset == "mobile", o.jc, o.jmin, o.jmax)
    && 15 <= o.s1 <= 150 && 15 <= o.s2 <= 150 && o.s1 + 56 != o.s2 && 12 <= o.s3 <= 55 && 12 <= o.s4 <= 27
    && o.headerProtectionKey == key && o.randomTrailers && o.disableCookies
    && Window(o.contentPaddingAddition, 8, 24, 8, 40) && RekeyWindows(o.rekeyAfterTime, o.rejectAfterTime)
    && Window(o.rekeyTimeout, 3, 6, 1, 4) && Window(o.keepaliveTimeout, 8, 12, 2, 8)
    && Window(o.maxHandshakeAttempts, 15, 25, 5, 25)
  }

  /** The windows of a set. */
  datatype Windows = Windows(padding: Span, rekey: Span, reject: Span, retry: Span, keepalive: Span, attempts: Span)

  /** They are drawn in this order. */
  function WindowsAt(raw: Raw, at: nat): Windows {
    var rekey := SpanAt(raw, at + 2, 100, 120, 10, 40);
    Windows(SpanAt(raw, at, 8, 24, 8, 40), rekey, SpanAt(raw, at + 4, rekey.hi + 30, rekey.hi + 60, 30, 90),
            SpanAt(raw, at + 6, 3, 6, 1, 4), SpanAt(raw, at + 8, 8, 12, 2, 8), SpanAt(raw, at + 10, 15, 25, 5, 25))
  }

  /** What is drawn after S2. */
  datatype Rest = Rest(s3: nat, s4: nat, h: seq<nat>, i: seq<nat>, w: Windows)

  function RestAt(raw: Raw, at: nat): Rest {
    Rest(Draw(raw, at, 12, 55), Draw(raw, at + 1, 12, 27), HeadersAt(raw, at + 2), SignaturesAt(raw, at + 6),
         WindowsAt(raw, at + 11))
  }

  /** What is drawn first, and the place of the source after it. */
  datatype Head = Head(junk: Junk, s1: nat, s2: nat, place: nat)

  function HeadAt(preset: string, raw: Raw, at: nat, patience: nat): Head {
    var p := PaddingsAt(raw, at + JunkDraws(preset), patience); Head(JunkAt(preset, raw, at), p.s1, p.s2, p.place)
  }

  /** Everything that is drawn for a set. */
  datatype Picks = Picks(head: Head, rest: Rest)

  function Printed(key: string, p: Picks): Obfuscation20
    requires |p.rest.h| == 4 && |p.rest.i| == 5
  {
    var j, r, h, i, w := p.head.junk, p.rest, p.rest.h, p.rest.i, p.rest.w;
    Obfuscation20(
      j.jc, j.jmin, j.jmax, p.head.s1, p.head.s2, r.s3, r.s4, Dec(h[0]), Dec(h[1]), Dec(h[2]), Dec(h[3]),
      RandomTag(i[0]), RandomTag(i[1]), RandomTag(i[2]), RandomTag(i[3]), RandomTag(i[4]), key, w.padding.Show(),
      w.rekey.Show(), w.retry.Show(), w.reject.Show(), w.keepalive.Show(), w.attempts.Show(), true, true)
  }

  /** What is drawn from a place of the source on; None when S2 has been drawn again `patience` times
      in vain. */
  function PicksAt(preset: string, raw: Raw, at: nat, patience: nat): (r: Option<Picks>)
    ensures r.Some? ==> |r.value.rest.h| == 4 && |r.value.rest.i| == 5
  {
    var head := HeadAt(preset, raw, at, patience);
    if head.s1 + 56 == head.s2 then None else Some(Picks(head, RestAt(raw, head.place)))
  }

  /** GenerateObfuscation20. `key` is what the key generator returned: blank when the random
      source failed. None when the redraw loop had not ended in time. */
  method GenerateObfuscation20(random: Random, preset: string, key: string, patience: nat)
    returns (r: Option<Obfuscation20>)
    modifies random
    ensures var picks := PicksAt(preset, random.raw, old(random.at), patience);
      r == if picks.None? then None else Some(Printed(key, picks.value))
  {
    var picks := Pick(random, preset, patience);
    if picks.None? {
      return None;
    }
    var p, j, w := picks.value, picks.value.head.junk, picks.value.rest.w;
    var h, i := p.rest.h, p.rest.i;
    r := Some(Obfuscation20(
      j.jc, j.jmin, j.jmax, p.head.s1, p.head.s2, p.rest.s3, p.rest.s4, Dec(h[0]), Dec(h[1]), Dec(h[2]), Dec(h[3]),
      RandomTag(i[0]), RandomTag(i[1]), RandomTag(i[2]), RandomTag(i[3]), RandomTag(i[4]), key, w.padding.Show(),
      w.rekey.Show(), w.retry.Show(), w.reject.Show(), w.keepalive.Show(), w.attempts.Show(), true, true));
  }

  /** Its draws, in order. */
  method Pick(random: Random, preset: string, patience: nat) returns (r: Option<Picks>)
    modifies random
    ensures r == PicksAt(preset, random.raw, old(random.at), patience)
  {
    var head := PickHead(random, preset, patience);
    if head.s1 + 56 == head.s2 {
      return None;
    }
    var rest := PickRest(random);
    r := Some(Picks(head, rest));
  }

  method PickHead(random: Random, preset: string, patience: nat) returns (h: Head)
    modifies random
    ensures h == HeadAt(preset, random.raw, old(random.at), patience) && random.at == h.place
  {
    var junk := GenerateJunk(random, preset);
    var p := GeneratePaddings(random, patience);
    h := Head(junk, p.s1, p.s2, p.place);
  }

  method PickRest(random: Random) returns (r: Rest)
    modifies random
    ensures r == RestAt(random.raw, old(random.at))
  {
    var s3 := random.RandInt(12, 55);
    var s4 := random.RandInt(12, 27);
    var h := GenerateHValues(random);
    var i := GenerateSignatures(random);
    var w := GenerateWindows(random);
    r := Rest(s3, s4, h, i, w);
  }

  method GenerateWindows(random: Random) returns (w: Windows)
    modifies random
    ensures w == WindowsAt(random.raw, old(random.at)) && random.at == old(random.at) + 12
  {
    var padding := GenerateWindow(random, 8, 24, 8, 40);
    var rekey := GenerateWindow(random, 100, 120, 10, 40);
    var reject := GenerateWindow(random, rekey.hi + 30, rekey.hi + 60, 30, 90);
    var retry := GenerateWindow(random, 3, 6, 1, 4);
    var keepalive := GenerateWindow(random, 8, 12, 2, 8);
    var attempts := GenerateWindow(random, 15, 25, 5, 25);
    w := Windows(padding, rekey, reject, retry, keepalive, attempts);
  }

  // ---------------------------------------------------------------------------
  // What can be drawn
  // ---------------------------------------------------------------------------

  predicate WindowsFit(w: Windows) {
    && w.padding.Within(8, 24, 8, 40) && RekeySpans(w.rekey, w.reject) && w.retry.Within(3, 6, 1, 4)
    && w.keepalive.Within(8, 12, 2, 8) && w.attempts.Within(15, 25, 5, 25)
  }

  predicate RestFits(r: Rest) {
    && 12 <= r.s3 <= 55 && 12 <= r.s4 <= 27
    && |r.h| == 4 && InBand(r.h[0], 0) && InBand(r.h[1], 1) && InBand(r.h[2], 2) && InBand(r.h[3], 3)
    && |r.i| == 5 && (forall n :: n in r.i ==> 32 <= n <= 256) && WindowsFit(r.w)
  }

  /** Each draw lies in its own range. */
  predicate InRanges(preset: string, p: Picks) {
    var h := p.head;
    && DrawnJunk(preset == "mobile", h.junk.jc, h.junk.jmin, h.junk.jmax)
    && 15 <= h.s1 <= 150 && 15 <= h.s2 <= 150 && h.s1 + 56 != h.s2 && RestFits(p.rest)
  }

  lemma RestInRange(raw: Raw, at: nat)
    ensures RestFits(RestAt(raw, at))
  {
  }

  lemma PicksInRange(preset: string, raw: Raw, at: nat, patience: nat)
    ensures var p := PicksAt(preset, raw, at, patience); p.Some? ==> InRanges(preset, p.value)
  {
    RestInRange(raw, HeadAt(preset, raw, at, patience).place);
  }

  /** S1 is drawn here, and every one of the draws after it clashes with it. */
  ghost predicate AllClash(raw: Raw, c: nat, patience: nat) {
    forall q :: c < q <= c + 1 + patience ==> Clashes(raw, q, Draw(raw, c, 15, 150))
  }

  lemma RedrawsAll(raw: Raw, c: nat, patience: nat)
    ensures var s1 := Draw(raw, c, 15, 150);
      Clashes(raw, c + 1 + Redraws(raw, c + 1, s1, patience), s1) <==> AllClash(raw, c, patience)
  {
  }

  lemma PaddingsClash(raw: Raw, c: nat, patience: nat)
    ensures var p := PaddingsAt(raw, c, patience); p.s1 + 56 == p.s2 <==> AllClash(raw, c, patience)
  {
    RedrawsAll(raw, c, patience);
  }

  /** There is no set just when every try at S2 makes the padded handshake packets equally long. */
  lemma GivesUpIff(preset: string, raw: Raw, at: nat, patience: nat)
    ensures PicksAt(preset, raw, at, patience).None? <==> AllClash(raw, at + JunkDraws(preset), patience)
  {
    PaddingsClash(raw, at + JunkDraws(preset), patience);
  }

  lemma SignaturesDrawn(i: seq<nat>, s: seq<string>)
    requires |i| == |s| == 5 && forall n :: n in i ==> 32 <= n <= 256
    requires forall k :: 0 <= k < 5 ==> s[k] == RandomTag(i[k])
    ensures forall x :: x in s ==> RandomSignature(x)
  {
    forall k | 0 <= k < 5 ensures RandomSignature(s[k]) {
      assert i[k] in i;
    }
  }

  lemma WindowsDrawn(w: Windows)
    requires WindowsFit(w)
    ensures Window(w.padding.Show(), 8, 24, 8, 40) && RekeyWindows(w.rekey.Show(), w.reject.Show())
    ensures Window(w.retry.Show(), 3, 6, 1, 4) && Window(w.keepalive.Show(), 8, 12, 2, 8)
    ensures Window(w.attempts.Show(), 15, 25, 5, 25)
  {
  }

  lemma HeadersDrawn(h: seq<nat>)
    requires |h| == 4 && InBand(h[0], 0) && InBand(h[1], 1) && InBand(h[2], 2) && InBand(h[3], 3)
    ensures BandHeader(Dec(h[0]), 0) && BandHeader(Dec(h[1]), 1) && BandHeader(Dec(h[2]), 2) && BandHeader(Dec(h[3]), 3)
  {
  }

  /** Printing what lies in the ranges gives a set with each field from its own range. */
  lemma PrintedIsDrawn(preset: string, key: string, p: Picks)
    requires InRanges(preset, p)
    ensures Drawn(preset, key, Printed(key, p))
  {
    SignaturesDrawn(p.rest.i, Printed(key, p).Signatures());
    WindowsDrawn(p.rest.w);
    HeadersDrawn(p.rest.h);
  }

  lemma DrawnPreamble(o: Obfuscation20)
    requires DrawnJunk(true, o.jc, o.jmin, o.jmax) || DrawnJunk(false, o.jc, o.jmin, o.jmax)
    requires forall s :: s in o.Signatures() ==> RandomSignature(s)
    ensures ValidPreamble(o)
  {
    forall s | s in o.Signatures() ensures ValidChain(s) {
      SignatureValid(s);
    }
  }

  lemma DrawnServer(decoded: string -> Option<nat>, o: Obfuscation20)
    requires ValidPreamble(o) && NoOverlap(o.Headers())
    requires forall v :: v in o.Headers() ==> ValidRangeValue(v, H_MAX_VALID)
    requires 15 <= o.s1 <= 150 && 15 <= o.s2 <= 150 && o.s1 + 56 != o.s2 && 12 <= o.s3 <= 55 && 12 <= o.s4 <= 27
    requires ValidHeaderKey(decoded, o.headerProtectionKey)
    ensures ValidServer(decoded, o) && ValidHeaderProtection(o.headerProtectionKey, o)
  {
  }

  lemma DrawnHeaders(o: Obfuscation20)
    requires BandHeader(o.h1, 0) && BandHeader(o.h2, 1) && BandHeader(o.h3, 2) && BandHeader(o.h4, 3)
    ensures NoOverlap(o.Headers()) && forall h :: h in o.Headers() ==> ValidRangeValue(h, H_MAX_VALID)
  {
    var a: nat :| o.h1 == Dec(a) && InBand(a, 0);
    var b: nat :| o.h2 == Dec(b) && InBand(b, 1);
    var c: nat :| o.h3 == Dec(c) && InBand(c, 2);
    var d: nat :| o.h4 == Dec(d) && InBand(d, 3);
    BandsApart(o.Headers(), [a, b, c, d]);
  }

  /** Whatever is drawn from these ranges is accepted by every validator, and fits the path. */
  lemma DrawnIsSaveable(preset: string, key: string, decoded: string -> Option<nat>, o: Obfuscation20)
    requires Drawn(preset, key, o) && ValidHeaderKey(decoded, key)
    ensures Saveable(decoded, o) && EffectiveMTU(0, o.s4, DEFAULT_MTU) + o.s4 <= MTU_PATH_CEILING
  {
    DrawnHeaders(o);
    DrawnPreamble(o);
    DrawnServer(decoded, o);
    RekeyWindowsValid(o.rekeyAfterTime, o.rejectAfterTime);
    WindowValid(o.contentPaddingAddition, 8, 24, 8, 40, CPA_MAX_VALID);
    WindowValid(o.rekeyTimeout, 3, 6, 1, 4, H_MAX_VALID);
    WindowValid(o.keepaliveTimeout, 8, 12, 2, 8, H_MAX_VALID);
    WindowValid(o.maxHandshakeAttempts, 15, 25, 5, 25, H_MAX_VALID);
  }

  // ---------------------------------------------------------------------------
  // Every such set can be drawn
  // ---------------------------------------------------------------------------

  lemma DrawIs(raw: Raw, at: nat, min: int, max: int, n: nat)
    requires min < max && raw(at) == Some(n) && n <= max - min
    ensures Draw(raw, at, min, max) == min + n
  {
  }

  /** From this place on the source gives these numbers. */
  ghost predicate Gives(raw: Raw, at: nat, ns: seq<nat>) { forall k :: 0 <= k < |ns| ==> raw(at + k) == Some(ns[k]) }

  function SourceOf(ns: seq<nat>): Raw { (q: nat) => if q < |ns| then Some(ns[q]) else None }

  lemma GivesParts(raw: Raw, at: nat, a: seq<nat>, b: seq<nat>)
    requires Gives(raw, at, a + b)
    ensures Gives(raw, at, a) && Gives(raw, at + |a|, b)
  {
    forall k | 0 <= k < |a| ensures raw(at + k) == Some(a[k]) {
      assert (a + b)[k] == a[k];
    }
    forall k | 0 <= k < |b| ensures raw(at + |a| + k) == Some(b[k]) {
      assert (a + b)[|a| + k] == b[k];
    }
  }

  function HeaderNumbers(h: seq<nat>): seq<nat>
    requires |h| == 4 && InBand(h[0], 0) && InBand(h[1], 1) && InBand(h[2], 2) && InBand(h[3], 3)
  {
    [h[0] - 5, h[1] - (5 + BAND_SIZE), h[2] - (5 + 2 * BAND_SIZE), h[3] - (5 + 3 * BAND_SIZE)]
  }

  lemma HeadersGiven(raw: Raw, at: nat, h: seq<nat>)
    requires |h| == 4 && InBand(h[0], 0) && InBand(h[1], 1) && InBand(h[2], 2) && InBand(h[3], 3)
    requires Gives(raw, at, HeaderNumbers(h))
    ensures HeadersAt(raw, at) == h
  {
    var ns := HeaderNumbers(h);
    DrawIs(raw, at, 5, 5 + BAND_SIZE - 1, ns[0]);
    DrawIs(raw, at + 1, 5 + BAND_SIZE, 5 + BAND_SIZE + BAND_SIZE - 1, ns[1]);
    DrawIs(raw, at + 2, 5 + 2 * BAND_SIZE, 5 + 2 * BAND_SIZE + BAND_SIZE - 1, ns[2]);
    DrawIs(raw, at + 3, 5 + 3 * BAND_SIZE, 5 + 3 * BAND_SIZE + BAND_SIZE - 1, ns[3]);
  }

  function SignatureNumbers(i: seq<nat>): seq<nat>
    requires |i| == 5 && forall n :: n in i ==> 32 <= n <= 256
  {
    assert i[0] in i && i[1] in i && i[2] in i && i[3] in i && i[4] in i;
    [i[0] - 32, i[1] - 32, i[2] - 32, i[3] - 32, i[4] - 32]
  }

  lemma SignaturesGiven(raw: Raw, at: nat, i: seq<nat>)
    requires |i| == 5 && (forall n :: n in i ==> 32 <= n <= 256) && Gives(raw, at, SignatureNumbers(i))
    ensures SignaturesAt(raw, at) == i
  {
    var ns := SignatureNumbers(i);
    assert i[0] in i && i[1] in i && i[2] in i && i[3] in i && i[4] in i;
    DrawIs(raw, at, 32, 256, ns[0]);
    DrawIs(raw, at + 1, 32, 256, ns[1]);
    DrawIs(raw, at + 2, 32, 256, ns[2]);
    DrawIs(raw, at + 3, 32, 256, ns[3]);
    DrawIs(raw, at + 4, 32, 256, ns[4]);
  }

  function SpanNumbers(s: Span, minLo: nat, maxLo: nat, minW: nat, maxW: nat): (ns: seq<nat>)
    requires s.Within(minLo, maxLo, minW, maxW)
    ensures |ns| == 2
  {
    [s.lo - minLo, s.hi - s.lo - minW]
  }

  lemma SpanGiven(raw: Raw, at: nat, s: Span, minLo: nat, maxLo: nat, minW: nat, maxW: nat)
    requires minLo < maxLo && minW < maxW && s.Within(minLo, maxLo, minW, maxW)
    requires Gives(raw, at, SpanNumbers(s, minLo, maxLo, minW, maxW))
    ensures SpanAt(raw, at, minLo, maxLo, minW, maxW) == s
  {
    var ns := SpanNumbers(s, minLo, maxLo, minW, maxW);
    DrawIs(raw, at, minLo, maxLo, ns[0]);
    DrawIs(raw, at + 1, minW, maxW, ns[1]);
  }

  function WindowNumbers(w: Windows): seq<nat>
    requires WindowsFit(w)
  {
    SpanNumbers(w.padding, 8, 24, 8, 40) + (SpanNumbers(w.rekey, 100, 120, 10, 40) + (
    SpanNumbers(w.reject, w.rekey.hi + 30, w.rekey.hi + 60, 30, 90) + (SpanNumbers(w.retry, 3, 6, 1, 4) + (
    SpanNumbers(w.keepalive, 8, 12, 2, 8) + SpanNumbers(w.attempts, 15, 25, 5, 25)))))
  }

  lemma SixGiven(raw: Raw, at: nat, a: seq<nat>, b: seq<nat>, c: seq<nat>, d: seq<nat>, e: seq<nat>, f: seq<nat>)
    requires |a| == |b| == |c| == |d| == |e| == 2 && Gives(raw, at, a + (b + (c + (d + (e + f)))))
    ensures Gives(raw, at, a) && Gives(raw, at + 2, b) && Gives(raw, at + 4, c) && Gives(raw, at + 6, d)
    ensures Gives(raw, at + 8, e) && Gives(raw, at + 10, f)
  {
    GivesParts(raw, at, a, b + (c + (d + (e + f))));
    GivesParts(raw, at + 2, b, c + (d + (e + f)));
    GivesParts(raw, at + 4, c, d + (e + f));
    GivesParts(raw, at + 6, d, e + f);
    GivesParts(raw, at + 8, e, f);
  }

  lemma WindowsGiven(raw: Raw, at: nat, w: Windows)
    requires WindowsFit(w) && Gives(raw, at, WindowNumbers(w))
    ensures WindowsAt(raw, at) == w
  {
    SixGiven(raw, at, SpanNumbers(w.padding, 8, 24, 8, 40), SpanNumbers(w.rekey, 100, 120, 10, 40),
             SpanNumbers(w.reject, w.rekey.hi + 30, w.rekey.hi + 60, 30, 90), SpanNumbers(w.retry, 3, 6, 1, 4),
             SpanNumbers(w.keepalive, 8, 12, 2, 8), SpanNumbers(w.attempts, 15, 25, 5, 25));
    SpanGiven(raw, at, w.padding, 8, 24, 8, 40);
    SpanGiven(raw, at + 2, w.rekey, 100, 120, 10, 40);
    SpanGiven(raw, at + 4, w.reject, w.rekey.hi + 30, w.rekey.hi + 60, 30, 90);
    SpanGiven(raw, at + 6, w.retry, 3, 6, 1, 4);
    SpanGiven(raw, at + 8, w.keepalive, 8, 12, 2, 8);
    SpanGiven(raw, at + 10, w.attempts, 15, 25, 5, 25);
  }

  function RestNumbers(r: Rest): seq<nat>
    requires RestFits(r)
  {
    [r.s3 - 12, r.s4 - 12] + (HeaderNumbers(r.h) + (SignatureNumbers(r.i) + WindowNumbers(r.w)))
  }

  lemma FourGiven(raw: Raw, at: nat, a: seq<nat>, h: seq<nat>, i: seq<nat>, w: seq<nat>)
    requires |a| == 2 && |h| == 4 && |i| == 5 && Gives(raw, at, a + (h + (i + w)))
    ensures raw(at) == Some(a[0]) && raw(at + 1) == Some(a[1])
    ensures Gives(raw, at + 2, h) && Gives(raw, at + 6, i) && Gives(raw, at + 11, w)
  {
    GivesParts(raw, at, a, h + (i + w));
    GivesParts(raw, at + 2, h, i + w);
    GivesParts(raw, at + 6, i, w);
    assert raw(at + 0) == Some(a[0]);
  }

  lemma RestIs(raw: Raw, at: nat, r: Rest)
    requires Draw(raw, at, 12, 55) == r.s3 && Draw(raw, at + 1, 12, 27) == r.s4
    requires HeadersAt(raw, at + 2) == r.h && SignaturesAt(raw, at + 6) == r.i && WindowsAt(raw, at + 11) == r.w
    ensures RestAt(raw, at) == r
  {
  }

  lemma RestGiven(raw: Raw, at: nat, r: Rest)
    requires RestFits(r) && Gives(raw, at, RestNumbers(r))
    ensures RestAt(raw, at) == r
  {
    FourGiven(raw, at, [r.s3 - 12, r.s4 - 12], HeaderNumbers(r.h), SignatureNumbers(r.i), WindowNumbers(r.w));
    DrawIs(raw, at, 12, 55, r.s3 - 12);
    DrawIs(raw, at + 1, 12, 27, r.s4 - 12);
    HeadersGiven(raw, at + 2, r.h);
    SignaturesGiven(raw, at + 6, r.i);
    WindowsGiven(raw, at + 11, r.w);
    RestIs(raw, at, r);
  }

  function JunkNumbers(preset: string, j: Junk): (ns: seq<nat>)
    requires DrawnJunk(preset == "mobile", j.jc, j.jmin, j.jmax)
    ensures |ns| == JunkDraws(preset)
  {
    if preset == "mobile" then [j.jmin - 30, j.jmax - j.jmin - 20] else [j.jc - 3, j.jmin - 40, j.jmax - j.jmin - 50]
  }

  lemma JunkGiven(preset: string, raw: Raw, at: nat, j: Junk)
    requires DrawnJunk(preset == "mobile", j.jc, j.jmin, j.jmax) && Gives(raw, at, JunkNumbers(preset, j))
    ensures JunkAt(preset, raw, at) == j
  {
    var ns := JunkNumbers(preset, j);
    if preset == "mobile" {
      DrawIs(raw, at, 30, 50, ns[0]);
      DrawIs(raw, at + 1, 20, 80, ns[1]);
    } else {
      DrawIs(raw, at, 3, 6, ns[0]);
      DrawIs(raw, at + 1, 40, 89, ns[1]);
      DrawIs(raw, at + 2, 50, 250, ns[2]);
    }
  }

  lemma HeadGiven(preset: string, raw: Raw, at: nat, patience: nat, h: Head)
    requires DrawnJunk(preset == "mobile", h.junk.jc, h.junk.jmin, h.junk.jmax)
    requires 15 <= h.s1 <= 150 && 15 <= h.s2 <= 150 && h.s1 + 56 != h.s2 && h.place == at + JunkDraws(preset) + 2
    requires Gives(raw, at, JunkNumbers(preset, h.junk) + [h.s1 - 15, h.s2 - 15])
    ensures HeadAt(preset, raw, at, patience) == h
  {
    var p, ns := at + JunkDraws(preset), [h.s1 - 15, h.s2 - 15];
    GivesParts(raw, at, JunkNumbers(preset, h.junk), ns);
    JunkGiven(preset, raw, at, h.junk);
    DrawIs(raw, p, 15, 150, ns[0]);
    DrawIs(raw, p + 1, 15, 150, ns[1]);
  }

  /** All that lies in its range can be drawn. */
  lemma EveryPickComes(preset: string, patience: nat, p: Picks) returns (raw: Raw)
    requires InRanges(preset, p) && p.head.place == JunkDraws(preset) + 2
    ensures PicksAt(preset, raw, 0, patience) == Some(p)
  {
    var a, b := JunkNumbers(preset, p.head.junk) + [p.head.s1 - 15, p.head.s2 - 15], RestNumbers(p.rest);
    raw := SourceOf(a + b);
    GivesParts(raw, 0, a, b);
    HeadGiven(preset, raw, 0, patience, p.head);
    RestGiven(raw, p.head.place, p.rest);
  }

  lemma WindowOf(v: string, minLo: int, maxLo: int, minW: int, maxW: int) returns (s: Span)
    requires Window(v, minLo, maxLo, minW, maxW)
    ensures v == s.Show() && s.Within(minLo, maxLo, minW, maxW)
  {
    s :| v == s.Show() && s.Within(minLo, maxLo, minW, maxW);
  }

  lemma WindowsOf(preset: string, key: string, o: Obfuscation20) returns (w: Windows)
    requires PartsDrawn(preset, key, o)
    ensures WindowsFit(w)
    ensures o.contentPaddingAddition == w.padding.Show() && o.rekeyAfterTime == w.rekey.Show()
    ensures o.rejectAfterTime == w.reject.Show() && o.rekeyTimeout == w.retry.Show()
    ensures o.keepaliveTimeout == w.keepalive.Show() && o.maxHandshakeAttempts == w.attempts.Show()
  {
    var padding := WindowOf(o.contentPaddingAddition, 8, 24, 8, 40);
    var rekey: Span, reject: Span :|
      o.rekeyAfterTime == rekey.Show() && o.rejectAfterTime == reject.Show() && RekeySpans(rekey, reject);
    var retry := WindowOf(o.rekeyTimeout, 3, 6, 1, 4);
    var keepalive := WindowOf(o.keepaliveTimeout, 8, 12, 2, 8);
    var attempts := WindowOf(o.maxHandshakeAttempts, 15, 25, 5, 25);
    w := Windows(padding, rekey, reject, retry, keepalive, attempts);
  }

  lemma HeadersOf(o: Obfuscation20) returns (h: seq<nat>)
    requires BandHeader(o.h1, 0) && BandHeader(o.h2, 1) && BandHeader(o.h3, 2) && BandHeader(o.h4, 3)
    ensures |h| == 4 && InBand(h[0], 0) && InBand(h[1], 1) && InBand(h[2], 2) && InBand(h[3], 3)
    ensures o.h1 == Dec(h[0]) && o.h2 == Dec(h[1]) && o.h3 == Dec(h[2]) && o.h4 == Dec(h[3])
  {
    var a: nat :| o.h1 == Dec(a) && InBand(a, 0);
    var b: nat :| o.h2 == Dec(b) && InBand(b, 1);
    var c: nat :| o.h3 == Dec(c) && InBand(c, 2);
    var d: nat :| o.h4 == Dec(d) && InBand(d, 3);
    h := [a, b, c, d];
  }

  lemma SizeOf(s: string) returns (n: nat)
    requires RandomSignature(s)
    ensures s == RandomTag(n) && 32 <= n <= 256
  {
    n :| s == RandomTag(n) && 32 <= n <= 256;
  }

  lemma SizesOf(o: Obfuscation20) returns (i: seq<nat>)
    requires forall s :: s in o.Signatures() ==> RandomSignature(s)
    ensures |i| == 5 && forall n :: n in i ==> 32 <= n <= 256
    ensures o.i1 == RandomTag(i[0]) && o.i2 == RandomTag(i[1]) && o.i3 == RandomTag(i[2])
    ensures o.i4 == RandomTag(i[3]) && o.i5 == RandomTag(i[4])
  {
    var s := o.Signatures();
    assert s[0] in s && s[1] in s && s[2] in s && s[3] in s && s[4] in s;
    var a := SizeOf(o.i1);
    var b := SizeOf(o.i2);
    var c := SizeOf(o.i3);
    var d := SizeOf(o.i4);
    var e := SizeOf(o.i5);
    i := [a, b, c, d, e];
  }

  /** Every set with each field from its own range can be drawn. */
  lemma EveryDrawComes(preset: string, key: string, patience: nat, o: Obfuscation20) returns (raw: Raw)
    requires Drawn(preset, key, o)
    ensures var p := PicksAt(preset, raw, 0, patience); p.Some? && Printed(key, p.value) == o
  {
    var h := HeadersOf(o);
    var i := SizesOf(o);
    var w := WindowsOf(preset, key, o);
    var p := Picks(Head(Junk(o.jc, o.jmin, o.jmax), o.s1, o.s2, JunkDraws(preset) + 2), Rest(o.s3, o.s4, h, i, w));
    raw := EveryPickComes(preset, patience, p);
  }
}
