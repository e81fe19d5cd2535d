/**
 Algorithm negotiation (third/ssh/common.go, section 7.1 of RFC 4253): the first client preference
 that the server also lists. Both endpoints run the same code on the same two KEXINIT messages, and
 must arrive at mirrored answers.
 */
module Negotiate {
  datatype Role = Client | Server

  function Peer(role: Role): (r: Role)
    ensures r != role
  {
    if role == Client then Server else Client
  }

  const KEX_STRICT_CLIENT: string := "kex-strict-c-v00@openssh.com"
  const KEX_STRICT_SERVER: string := "kex-strict-s-v00@openssh.com"
  const AEAD_CIPHERS: set<string> :=
    {"aes128-gcm@openssh.com", "aes256-gcm@openssh.com", "chacha20-poly1305@openssh.com"}

  /** The name lists of a KEXINIT message. */
  datatype Init = Init(
    kexAlgos: seq<string>,
    hostKeyAlgos: seq<string>,
    ciphersClientServer: seq<string>,
    ciphersServerClient: seq<string>,
    macsClientServer: seq<string>,
    macsServerClient: seq<string>,
    compressionClientServer: seq<string>,
    compressionServerClient: seq<string>)

  datatype DirectionAlgorithms = DirectionAlgorithms(cipher: string, mac: string, compression: string)

  datatype Algorithms = Algorithms(
    keyExchange: string,
    hostKey: string,
    write: DirectionAlgorithms,
    read: DirectionAlgorithms)

  datatype Choice = Chosen(name: string) | NoneInCommon(what: string, supported: seq<string>, requested: seq<string>)

  datatype Agreement = Agreed(algorithms: Algorithms) | Refused(what: string, supported: seq<string>, requested: seq<string>)

  // ---------------------------------------------------------------- findCommon

  /** The first client preference at or after index i that the server lists. */
  function FirstShared(client: seq<string>, server: seq<string>, i: nat): (k: nat)
    requires i <= |client|
    ensures i <= k <= |client|
    ensures k < |client| ==> client[k] in server
    ensures forall j :: i <= j < k ==> client[j] !in server
    decreases |client| - i
  {
    if i == |client| || client[i] in server then i else FirstShared(client, server, i + 1)
  }

  function Common(what: string, client: seq<string>, server: seq<string>, isClient: bool): (c: Choice)
  {
    var k := FirstShared(client, server, 0);
    if k < |client| then Chosen(client[k])
    else if isClient then NoneInCommon(what, client, server)
    else NoneInCommon(what, server, client)
  }

  /** The two nested search loops of findCommon. */
  method FindCommon(what: string, client: seq<string>, server: seq<string>, isClient: bool) returns (c: Choice)
    ensures c == Common(what, client, server, isClient)
    ensures c.Chosen? <==> exists name :: name in client && name in server
    ensures c.Chosen? ==> exists i :: 0 <= i < |client| && client[i] == c.name && c.name in server
                                      && forall j :: 0 <= j < i ==> client[j] !in server
  {
    var i := 0;
    while i < |client|
      invariant 0 <= i <= |client|
      invariant forall j :: 0 <= j < i ==> client[j] !in server
      invariant FirstShared(client, server, 0) == FirstShared(client, server, i)
    {
      var j := 0;
      while j < |server|
        invariant 0 <= j <= |server|
        invariant client[i] !in server[..j]
      {
        if client[i] == server[j] {
          assert FirstShared(client, server, i) == i;
          return Chosen(client[i]);
        }
        assert server[..j + 1] == server[..j] + [server[j]];
        j := j + 1;
      }
      assert server[..j] == server;
      i := i + 1;
    }
    c := if isClient then NoneInCommon(what, client, server) else NoneInCommon(what, server, client);
  }

  // ---------------------------------------------------------------- findAgreedAlgorithms

  function Refuse(c: Choice): (a: Agreement)
    requires c.NoneInCommon?
  {
    Refused(c.what, c.supported, c.requested)
  }

  function MacChoice(what: string, cipher: string, client: seq<string>, server: seq<string>, isClient: bool): (c: Choice)
  {
    if cipher in AEAD_CIPHERS then Chosen("") else Common(what, client, server, isClient)
  }

  /** The negotiation in the order of the source: the first list without a common name is reported. */
  function Negotiated(isClient: bool, c: Init, s: Init): (a: Agreement)
  {
    var kex := Common("key exchange", c.kexAlgos, s.kexAlgos, isClient);
    if kex.NoneInCommon? then Refuse(kex) else
    var host := Common("host key", c.hostKeyAlgos, s.hostKeyAlgos, isClient);
    if host.NoneInCommon? then Refuse(host) else
    var cipherUp := Common("client to server cipher", c.ciphersClientServer, s.ciphersClientServer, isClient);
    if cipherUp.NoneInCommon? then Refuse(cipherUp) else
    var cipherDown := Common("server to client cipher", c.ciphersServerClient, s.ciphersServerClient, isClient);
    if cipherDown.NoneInCommon? then Refuse(cipherDown) else
    var macUp := MacChoice("client to server MAC", cipherUp.name, c.macsClientServer, s.macsClientServer, isClient);
    if macUp.NoneInCommon? then Refuse(macUp) else
    var macDown := MacChoice("server to client MAC", cipherDown.name, c.macsServerClient, s.macsServerClient, isClient);
    if macDown.NoneInCommon? then Refuse(macDown) else
    var compUp := Common("client to server compression", c.compressionClientServer, s.compressionClientServer, isClient);
    if compUp.NoneInCommon? then Refuse(compUp) else
    var compDown := Common("server to client compression", c.compressionServerClient, s.compressionServerClient, isClient);
    if compDown.NoneInCommon? then Refuse(compDown) else
    var up := DirectionAlgorithms(cipherUp.name, macUp.name, compUp.name);
    var down := DirectionAlgorithms(cipherDown.name, macDown.name, compDown.name);
    Agreed(if isClient then Algorithms(kex.name, host.name, up, down) else Algorithms(kex.name, host.name, down, up))
  }

  predicate Share(client: seq<string>, server: seq<string>)
  {
    exists i :: 0 <= i < |client| && client[i] in server
  }

  /** name is the client's favourite among what the server lists. */
  ghost predicate Favourite(name: string, client: seq<string>, server: seq<string>)
  {
    exists i :: 0 <= i < |client| && client[i] == name && name in server && forall j :: 0 <= j < i ==> client[j] !in server
  }

  lemma {:induction false} CommonMeaning(what: string, client: seq<string>, server: seq<string>, isClient: bool)
    ensures Common(what, client, server, isClient).Chosen? <==> Share(client, server)
    ensures Common(what, client, server, isClient).Chosen? ==> Favourite(Common(what, client, server, isClient).name, client, server)
  {
    var k := FirstShared(client, server, 0);
    assert k < |client| ==> client[k] in server;
  }

  /** The direction's cipher is the favourite, and so is its MAC unless the cipher authenticates itself. */
  ghost predicate DirectionChosen(d: DirectionAlgorithms, ciphers: (seq<string>, seq<string>), macs: (seq<string>, seq<string>),
                                  compressions: (seq<string>, seq<string>))
  {
    && Favourite(d.cipher, ciphers.0, ciphers.1)
    && (if d.cipher in AEAD_CIPHERS then d.mac == "" else Favourite(d.mac, macs.0, macs.1))
    && Favourite(d.compression, compressions.0, compressions.1)
  }

  /** What the client agrees to: its favourite in every list, for the direction it writes and the one it reads. */
  lemma {:induction false} AgreedAreFavourites(c: Init, s: Init)
    requires Negotiated(true, c, s).Agreed?
    ensures var a := Negotiated(true, c, s).algorithms;
            && Favourite(a.keyExchange, c.kexAlgos, s.kexAlgos) && Favourite(a.hostKey, c.hostKeyAlgos, s.hostKeyAlgos)
            && DirectionChosen(a.write, (c.ciphersClientServer, s.ciphersClientServer), (c.macsClientServer, s.macsClientServer),
                               (c.compressionClientServer, s.compressionClientServer))
            && DirectionChosen(a.read, (c.ciphersServerClient, s.ciphersServerClient), (c.macsServerClient, s.macsServerClient),
                               (c.compressionServerClient, s.compressionServerClient))
  {
    CommonMeaning("key exchange", c.kexAlgos, s.kexAlgos, true);
    CommonMeaning("host key", c.hostKeyAlgos, s.hostKeyAlgos, true);
    CommonMeaning("client to server cipher", c.ciphersClientServer, s.ciphersClientServer, true);
    CommonMeaning("server to client cipher", c.ciphersServerClient, s.ciphersServerClient, true);
    CommonMeaning("client to server MAC", c.macsClientServer, s.macsClientServer, true);
    CommonMeaning("server to client MAC", c.macsServerClient, s.macsServerClient, true);
    CommonMeaning("client to server compression", c.compressionClientServer, s.compressionClientServer, true);
    CommonMeaning("server to client compression", c.compressionServerClient, s.compressionServerClient, true);
  }

  function Mirror(a: Agreement): (m: Agreement)
    ensures a.Agreed? <==> m.Agreed?
  {
    match a
    case Agreed(g) => Agreed(Algorithms(g.keyExchange, g.hostKey, g.read, g.write))
    case Refused(what, supported, requested) => Refused(what, requested, supported)
  }

  /** The two ends agree or fail together, name the same list, and read with what the other writes with. */
  lemma {:induction false} Mirrored(c: Init, s: Init)
    ensures Negotiated(false, c, s) == Mirror(Negotiated(true, c, s))
  {
  }

  // ---------------------------------------------------------------- what sendKexInit advertises

  datatype Config = Config(keyExchanges: seq<string>, hostKeyAlgos: seq<string>, ciphers: seq<string>, macs: seq<string>)

  /** The strict-mode markers are appended to the first KEXINIT only. */
  function KexInit(role: Role, config: Config, first: bool): (i: Init)
  {
    var extra :=
      if !first then []
      else if role == Server then [KEX_STRICT_SERVER]
      else ["ext-info-c", KEX_STRICT_CLIENT];
    Init(config.keyExchanges + extra, config.hostKeyAlgos, config.ciphers, config.ciphers, config.macs, config.macs,
         ["none"], ["none"])
  }

  /** Whether an endpoint turns strict mode on after reading the other side's first KEXINIT. */
  predicate Adopts(role: Role, other: Init)
  {
    (if role == Client then KEX_STRICT_SERVER else KEX_STRICT_CLIENT) in other.kexAlgos
  }

  /** The markers themselves are never chosen as a key exchange unless a configuration lists one. */
  lemma {:induction false} MarkersAreNotChosen(c: Config, s: Config, first: bool)
    requires "ext-info-c" !in s.keyExchanges && KEX_STRICT_CLIENT !in s.keyExchanges
    ensures Common("key exchange", KexInit(Client, c, first).kexAlgos, KexInit(Server, s, first).kexAlgos, true).Chosen?
            <==> exists name :: name in c.keyExchanges && name in KexInit(Server, s, first).kexAlgos
    ensures var a := Common("key exchange", KexInit(Client, c, first).kexAlgos, KexInit(Server, s, first).kexAlgos, true);
            a.Chosen? ==> a.name in c.keyExchanges
  {
    var client, server := KexInit(Client, c, first).kexAlgos, KexInit(Server, s, first).kexAlgos;
    var k := FirstShared(client, server, 0);
    assert KEX_STRICT_SERVER[11] == 's' && KEX_STRICT_CLIENT[11] == 'c';
    assert |"ext-info-c"| != |KEX_STRICT_SERVER|;
    assert forall j :: |c.keyExchanges| <= j < |client| ==> client[j] in ["ext-info-c", KEX_STRICT_CLIENT];
    forall name | name in c.keyExchanges && name in server
      ensures k < |client|
    {
      var j :| 0 <= j < |c.keyExchanges| && c.keyExchanges[j] == name;
      assert client[j] == name;
    }
  }

  /** Two endpoints of this library always agree on strict mode, and it is on. */
  lemma {:induction false} StrictAgreed(c: Config, s: Config)
    ensures Adopts(Client, KexInit(Server, s, true)) && Adopts(Server, KexInit(Client, c, true))
  {
    var up := KexInit(Client, c, true).kexAlgos;
    var down := KexInit(Server, s, true).kexAlgos;
    assert up[|up| - 1] == KEX_STRICT_CLIENT;
    assert down[|down| - 1] == KEX_STRICT_SERVER;
  }
}
