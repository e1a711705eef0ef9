/** AmneziaWG's database-backed shapes, shared by both datapaths. */
module Amnezia {

  datatype Obfuscation20 = Obfuscation20(
    jc: int, jmin: int, jmax: int,
    s1: int, s2: int, s3: int, s4: int,
    h1: string, h2: string, h3: string, h4: string,
    i1: string, i2: string, i3: string, i4: string, i5: string,
    headerProtectionKey: string,
    contentPaddingAddition: string,
    rekeyAfterTime: string,
    rekeyTimeout: string,
    rejectAfterTime: string,
    keepaliveTimeout: string,
    maxHandshakeAttempts: string,
    randomTrailers: bool,
    disableCookies: bool)
  {
    function Headers(): seq<string> { [h1, h2, h3, h4] }

    function Signatures(): seq<string> { [i1, i2, i3, i4, i5] }
  }

  datatype Peer = Peer(
    email: string,
    publicKey: string,
    presharedKey: string,
    allowedIPs: seq<string>,
    forwardedPorts: string)

  datatype Instance = Instance(
    id: int,
    listenPort: int,
    listen: string,
    privateKey: string,
    address: seq<string>,
    mtu: int,
    obfuscation: Obfuscation20,
    peers: seq<Peer>,
    externalInterface: string,
    ipv6Enabled: bool,
    ipv6ExternalInterface: string)

  const DEFAULT_MTU := 1420
  const MAX_MTU := 65535
  const MTU_PATH_CEILING := 1440

  /** An explicit MTU is only capped; an unset one is shrunk until the transport padding
      fits the path. */
  function EffectiveMTU(mtu: int, s4: int, fallback: int): (r: int)
    ensures mtu > 0 ==> r <= mtu && r <= MAX_MTU && (r == mtu || r == MAX_MTU)
    ensures mtu <= 0 ==> r + s4 <= MTU_PATH_CEILING && r <= fallback && (r == fallback || r + s4 == MTU_PATH_CEILING)
  {
    if mtu > 0 then (if mtu <= MAX_MTU then mtu else MAX_MTU)
    else if fallback + s4 > MTU_PATH_CEILING then MTU_PATH_CEILING - s4
    else fallback
  }
}
