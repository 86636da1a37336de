/** The cache of mutual-TLS clients: when a cached client is the one a fresh build would give. */
module Mtls {
  import opened Wrappers
  import opened Text
  import opened Config

  // ---------- building a client ----------

  datatype Provider = Provider(
    certificateFile: Option<string>, privateKeyFile: Option<string>, caCertificateFile: Option<string>)

  /** The bootstrap's providers, and the certificate files that load; both fixed while the pool lives. */
  datatype Setup = Setup(providers: map<string, Provider>, loadable: set<string>)

  datatype SetupError = NoProvider(name: string) | NoFile(field: string, provider: string) | NotLoaded(path: string)

  /** A built client, by what it was built from. */
  datatype Client = Client(serverName: Option<string>, certificate: string, privateKey: string, roots: string)

  /** The defaulted server name and providers: all that a build depends on. */
  datatype Identity = Identity(sni: string, certificate: string, validation: string)

  function Or(value: Option<string>, default: string): string {
    match value case None => default case Some(v) => v
  }

  function IdentityOf(tls: UpstreamTls): Identity {
    Identity(Or(tls.sni, ""), Or(tls.certificateProvider, "default"), Or(tls.validationProvider, "default"))
  }

  /** `tls_config` and the connector: providers first, then their files, then loading. */
  function Build(setup: Setup, id: Identity): Result<Client, SetupError> {
    if id.certificate !in setup.providers then Err(NoProvider(id.certificate))
    else if id.validation !in setup.providers then Err(NoProvider(id.validation))
    else
      var cert, root := setup.providers[id.certificate], setup.providers[id.validation];
      if cert.certificateFile.None? then Err(NoFile("certificate_file", id.certificate))
      else if cert.privateKeyFile.None? then Err(NoFile("private_key_file", id.certificate))
      else if root.caCertificateFile.None? then Err(NoFile("ca_certificate_file", id.validation))
      else if cert.certificateFile.value !in setup.loadable then Err(NotLoaded(cert.certificateFile.value))
      else if cert.privateKeyFile.value !in setup.loadable then Err(NotLoaded(cert.privateKeyFile.value))
      else if root.caCertificateFile.value !in setup.loadable then Err(NotLoaded(root.caCertificateFile.value))
      else Ok(Client(if id.sni == "" then None else Some(id.sni),
                     cert.certificateFile.value, cert.privateKeyFile.value, root.caCertificateFile.value))
  }

  /** A provider's name is the given one, or `default`. */
  ghost predicate ProviderNamed(given: Option<string>, name: string) {
    given == Some(name) || (given == None && name == "default")
  }

  ghost predicate FileOf(setup: Setup, file: Option<string>, path: string) {
    file == Some(path) && path in setup.loadable
  }

  /** The client has the request's server name, unless empty, and the loaded files of its two providers. */
  ghost predicate BuiltFrom(setup: Setup, tls: UpstreamTls, cert: string, root: string, client: Client) {
    && cert in setup.providers && root in setup.providers
    && FileOf(setup, setup.providers[cert].certificateFile, client.certificate)
    && FileOf(setup, setup.providers[cert].privateKeyFile, client.privateKey)
    && FileOf(setup, setup.providers[root].caCertificateFile, client.roots)
    && if tls.sni == Some("") then client.serverName == None else client.serverName == tls.sni
  }

  /** A client is built if and only if all its files are named and load, and from these. */
  lemma {:induction false} BuildMeaning(setup: Setup, tls: UpstreamTls, cert: string, root: string, client: Client)
    requires ProviderNamed(tls.certificateProvider, cert) && ProviderNamed(tls.validationProvider, root)
    ensures Build(setup, IdentityOf(tls)) == Ok(client) <==> BuiltFrom(setup, tls, cert, root, client)
  {
  }

  // ---------- the cache key ----------

  function Field(text: string, rest: string): string {
    text + "|" + rest
  }

  /** `sni|certificate|validation|alpn`. */
  function KeyText(id: Identity, alpn: string): string {
    Field(id.sni, Field(id.certificate, Field(id.validation, alpn)))
  }

  function CacheKey(tls: UpstreamTls): string {
    KeyText(IdentityOf(tls), JoinWith(tls.alpnProtocols, ","))
  }

  lemma {:induction false} TwoJoined(p: string, q: string)
    ensures JoinWith([], ",") == "" && JoinWith([p], ",") == p && JoinWith([p, q], ",") == p + "," + q
  {
    assert [p, q][1..] == [q];
  }

  /** The key spells out the request, defaults filled in, with bars between the fields. */
  lemma {:induction false} KeySpelled(tls: UpstreamTls, sni: string, cert: string, root: string)
    requires tls.sni == Some(sni) || (tls.sni == None && sni == "")
    requires ProviderNamed(tls.certificateProvider, cert) && ProviderNamed(tls.validationProvider, root)
    ensures CacheKey(tls) == sni + "|" + (cert + "|" + (root + "|" + JoinWith(tls.alpnProtocols, ",")))
  {
  }

  predicate BarFree(id: Identity) {
    Free('|', id.sni) && Free('|', id.certificate) && Free('|', id.validation)
  }

  /** The text before the first bar, and the text after it. */
  function Cut(s: string): (r: (string, string))
    ensures Free('|', r.0)
    ensures !Free('|', s) ==> s == Field(r.0, r.1)
  {
    var i := FirstIndex(s, '|');
    if i == |s| then (s, "") else assert s == s[..i] + "|" + s[i + 1..]; (s[..i], s[i + 1..])
  }

  /** The identity a key names: its first three fields. The rest of the key is the protocol list. */
  function Named(key: string): (r: (Identity, string))
    ensures BarFree(r.0)
  {
    var (a, rest) := Cut(key);
    var (b, rest') := Cut(rest);
    var (c, alpn) := Cut(rest');
    (Identity(a, b, c), alpn)
  }

  lemma {:induction false} CutField(a: string, rest: string)
    requires Free('|', a)
    ensures Cut(Field(a, rest)) == (a, rest)
  {
    var s := Field(a, rest);
    assert s[..|a|] == a && s[|a|] == '|' && s[|a| + 1..] == rest;
    FirstIndexIs(s, '|', |a|);
  }

  /** A key names exactly the identities without bars that were joined into it. */
  lemma {:induction false} KeyNamesBarFree(id: Identity, alpn: string)
    requires BarFree(id)
    ensures Named(KeyText(id, alpn)) == (id, alpn)
  {
    CutField(id.sni, Field(id.certificate, Field(id.validation, alpn)));
    CutField(id.certificate, Field(id.validation, alpn));
    CutField(id.validation, alpn);
  }

  function Bars(s: string): nat {
    if s == "" then 0 else (if s[0] == '|' then 1 else 0) + Bars(s[1..])
  }

  lemma {:induction false} BarsAppend(a: string, b: string)
    ensures Bars(a + b) == Bars(a) + Bars(b)
    decreases |a|
  {
    if a == "" {
      assert a + b == b;
    } else {
      BarsAppend(a[1..], b);
      assert (a + b)[1..] == a[1..] + b;
    }
  }

  lemma {:induction false} NoBars(s: string)
    ensures Bars(s) == 0 <==> Free('|', s)
  {
    if s != "" {
      NoBars(s[1..]);
      assert s == [s[0]] + s[1..];
    }
  }

  lemma {:induction false} FieldAddsBar(a: string, rest: string)
    ensures Bars(Field(a, rest)) == Bars(a) + 1 + Bars(rest)
  {
    assert Field(a, rest) == a + ("|" + rest) && ("|" + rest)[1..] == rest;
    BarsAppend(a, "|" + rest);
  }

  lemma {:induction false} CutTakesOneBar(s: string)
    requires Bars(s) > 0
    ensures var (a, rest) := Cut(s); s == Field(a, rest) && Bars(rest) == Bars(s) - 1
  {
    var (a, rest) := Cut(s);
    NoBars(s);
    NoBars(a);
    FieldAddsBar(a, rest);
  }

  /** Any key is also the key of the bar-free identity it names. */
  lemma {:induction false} KeyRebuilds(id: Identity, alpn: string)
    ensures var (named, rest) := Named(KeyText(id, alpn)); KeyText(named, rest) == KeyText(id, alpn)
  {
    FieldAddsBar(id.validation, alpn);
    FieldAddsBar(id.certificate, Field(id.validation, alpn));
    FieldAddsBar(id.sni, Field(id.certificate, Field(id.validation, alpn)));
    ThreeCuts(KeyText(id, alpn));
  }

  lemma {:induction false} ThreeCuts(key: string)
    requires Bars(key) >= 3
    ensures KeyText(Named(key).0, Named(key).1) == key
  {
    CutTakesOneBar(key);
    CutTakesOneBar(Cut(key).1);
    CutTakesOneBar(Cut(Cut(key).1).1);
  }

  // ---------- the cache ----------

  /** `client_for`: the cached client under the key, else a fresh one, cached if it builds. */
  function ClientFor(
    setup: Setup, cache: map<string, Client>, tls: UpstreamTls): (Result<Client, SetupError>, map<string, Client>)
  {
    var key := CacheKey(tls);
    if key in cache then (Ok(cache[key]), cache) else
      match Build(setup, IdentityOf(tls))
      case Err(e) => (Err(e), cache)
      case Ok(client) => (Ok(client), cache[key := client])
  }

  function CacheAfter(setup: Setup, requests: seq<UpstreamTls>): map<string, Client> {
    if requests == [] then map[] else
      ClientFor(setup, CacheAfter(setup, requests[..|requests| - 1]), requests[|requests| - 1]).1
  }

  /** What the pool answers to `tls` after a history of requests. */
  function Answer(setup: Setup, history: seq<UpstreamTls>, tls: UpstreamTls): Result<Client, SetupError> {
    ClientFor(setup, CacheAfter(setup, history), tls).0
  }

  ghost predicate AllBarFree(requests: seq<UpstreamTls>) {
    forall i | 0 <= i < |requests| :: BarFree(IdentityOf(requests[i]))
  }

  /** A cached client was built for some earlier request under the same key. */
  lemma {:induction false} CachedFrom(setup: Setup, history: seq<UpstreamTls>, key: string) returns (i: nat)
    requires key in CacheAfter(setup, history)
    ensures i < |history| && CacheKey(history[i]) == key
    ensures Build(setup, IdentityOf(history[i])) == Ok(CacheAfter(setup, history)[key])
  {
    var n := |history| - 1;
    if key in CacheAfter(setup, history[..n]) {
      i := CachedFrom(setup, history[..n], key);
    } else {
      i := n;
    }
  }

  /** Where every request with the key has the same identity, the answer is a fresh build. */
  lemma {:induction false} FreshIfKeyDecides(setup: Setup, history: seq<UpstreamTls>, tls: UpstreamTls)
    requires forall i | 0 <= i < |history| && CacheKey(history[i]) == CacheKey(tls) ::
      IdentityOf(history[i]) == IdentityOf(tls)
    ensures Answer(setup, history, tls) == Build(setup, IdentityOf(tls))
  {
    if CacheKey(tls) in CacheAfter(setup, history) {
      var i := CachedFrom(setup, history, CacheKey(tls));
    }
  }

  lemma {:induction false} BarFreeKeyDecides(a: UpstreamTls, b: UpstreamTls)
    requires CacheKey(a) == CacheKey(b) && BarFree(IdentityOf(a)) && BarFree(IdentityOf(b))
    ensures IdentityOf(a) == IdentityOf(b)
  {
    KeyNamesBarFree(IdentityOf(a), JoinWith(a.alpnProtocols, ","));
    KeyNamesBarFree(IdentityOf(b), JoinWith(b.alpnProtocols, ","));
  }

  /** Among identities without bars, a cached client equals a fresh one, whatever the protocols. */
  lemma {:induction false} CachedIsFresh(setup: Setup, history: seq<UpstreamTls>, tls: UpstreamTls)
    requires AllBarFree(history) && BarFree(IdentityOf(tls))
    ensures Answer(setup, history, tls) == Build(setup, IdentityOf(tls))
  {
    forall i | 0 <= i < |history| && CacheKey(history[i]) == CacheKey(tls)
      ensures IdentityOf(history[i]) == IdentityOf(tls)
    {
      BarFreeKeyDecides(history[i], tls);
    }
    FreshIfKeyDecides(setup, history, tls);
  }

  // ---------- requests without any bar ----------

  /** No bar in the defaulted server name, the providers or the protocols. */
  ghost predicate NoBar(tls: UpstreamTls) {
    BarFree(IdentityOf(tls)) && forall p | p in tls.alpnProtocols :: Free('|', p)
  }

  lemma {:induction false} BarsJoined(parts: seq<string>)
    ensures Bars(JoinWith(parts, ",")) == 0 <==> forall p | p in parts :: Free('|', p)
  {
    if parts != [] {
      NoBars(parts[0]);
      assert parts == [parts[0]] + parts[1..];
      if |parts| > 1 {
        BarsJoined(parts[1..]);
        BarsAppend(parts[0] + ",", JoinWith(parts[1..], ","));
        BarsAppend(parts[0], ",");
        NoBars(",");
      }
    }
  }

  /** A key has three bars exactly when nothing joined into it holds one. */
  lemma {:induction false} ThreeBars(tls: UpstreamTls)
    ensures Bars(CacheKey(tls)) >= 3
    ensures Bars(CacheKey(tls)) == 3 <==> NoBar(tls)
  {
    var id, alpn := IdentityOf(tls), JoinWith(tls.alpnProtocols, ",");
    FieldAddsBar(id.validation, alpn);
    FieldAddsBar(id.certificate, Field(id.validation, alpn));
    FieldAddsBar(id.sni, Field(id.certificate, Field(id.validation, alpn)));
    NoBars(id.sni);
    NoBars(id.certificate);
    NoBars(id.validation);
    BarsJoined(tls.alpnProtocols);
  }

  /** A request without any bar gets a fresh client after every history, with or without bars. */
  lemma {:induction false} NoBarIsFresh(setup: Setup, history: seq<UpstreamTls>, tls: UpstreamTls)
    requires NoBar(tls)
    ensures Answer(setup, history, tls) == Build(setup, IdentityOf(tls))
  {
    ThreeBars(tls);
    forall i | 0 <= i < |history| && CacheKey(history[i]) == CacheKey(tls)
      ensures IdentityOf(history[i]) == IdentityOf(tls)
    {
      ThreeBars(history[i]);
      BarFreeKeyDecides(history[i], tls);
    }
    FreshIfKeyDecides(setup, history, tls);
  }

  // ---------- requests with a bar ----------

  /** A set-up in which every provider has files of its own. */
  function OwnFiles(names: set<string>): Setup {
    Setup(map n | n in names :: Provider(Some(n), Some(n), Some(n)), names)
  }

  /** The bar-free request whose key is that of `tls`. */
  function Double(tls: UpstreamTls): UpstreamTls {
    var (id, alpn) := Named(CacheKey(tls));
    UpstreamTls(Some(id.sni), Some(id.certificate), Some(id.validation), [alpn])
  }

  lemma {:induction false} DoubleSharesKey(tls: UpstreamTls)
    ensures BarFree(IdentityOf(Double(tls))) && CacheKey(Double(tls)) == CacheKey(tls)
  {
    KeyRebuilds(IdentityOf(tls), JoinWith(tls.alpnProtocols, ","));
    var alpn := Named(CacheKey(tls)).1;
    assert JoinWith([alpn], ",") == alpn;
  }

  lemma {:induction false} OwnFilesBuild(names: set<string>, id: Identity)
    requires id.certificate in names && id.validation in names
    ensures Build(OwnFiles(names), id) ==
      Ok(Client(if id.sni == "" then None else Some(id.sni), id.certificate, id.certificate, id.validation))
  {
  }

  lemma {:induction false} SecondIsShadowed(setup: Setup, first: UpstreamTls, second: UpstreamTls)
    requires CacheKey(first) == CacheKey(second) && Build(setup, IdentityOf(first)).Ok?
    ensures Answer(setup, [first], second) == Build(setup, IdentityOf(first))
  {
    assert [first][..0] == [];
    assert CacheAfter(setup, []) == map[];
    assert CacheAfter(setup, [first]) == ClientFor(setup, map[], first).1;
  }

  /** Two requests with one key and different identities: after the first, the second gets the first one's client. */
  lemma {:induction false} SameKeyShadows(first: UpstreamTls, second: UpstreamTls) returns (setup: Setup)
    requires CacheKey(first) == CacheKey(second) && IdentityOf(first) != IdentityOf(second)
    ensures Build(setup, IdentityOf(second)).Ok?
    ensures Answer(setup, [first], second) != Build(setup, IdentityOf(second))
  {
    var a, b := IdentityOf(first), IdentityOf(second);
    var names := {a.certificate, a.validation, b.certificate, b.validation};
    setup := OwnFiles(names);
    OwnFilesBuild(names, a);
    OwnFilesBuild(names, b);
    SecondIsShadowed(setup, first, second);
  }

  /** A request with a bar in its identity can be answered with another identity's client. */
  lemma {:induction false} DoubleShadows(tls: UpstreamTls) returns (setup: Setup)
    requires !BarFree(IdentityOf(tls))
    ensures AllBarFree([Double(tls)])
    ensures Build(setup, IdentityOf(tls)).Ok?
    ensures Answer(setup, [Double(tls)], tls) != Build(setup, IdentityOf(tls))
  {
    DoubleSharesKey(tls);
    setup := SameKeyShadows(Double(tls), tls);
  }

  /** The request whose fields stand one bar further on in the same key. */
  function Shifted(tls: UpstreamTls): UpstreamTls {
    var id, (protocol, rest) := IdentityOf(tls), Cut(JoinWith(tls.alpnProtocols, ","));
    UpstreamTls(Some(Field(id.sni, id.certificate)), Some(id.validation), Some(protocol), [rest])
  }

  lemma {:induction false} ShiftedSharesKey(tls: UpstreamTls)
    requires !Free('|', JoinWith(tls.alpnProtocols, ","))
    ensures CacheKey(Shifted(tls)) == CacheKey(tls) && IdentityOf(Shifted(tls)) != IdentityOf(tls)
  {
    var id, alpn := IdentityOf(tls), JoinWith(tls.alpnProtocols, ",");
    var (protocol, rest) := Cut(alpn);
    assert JoinWith([rest], ",") == rest && alpn == Field(protocol, rest);
    var tail := Field(id.validation, Field(protocol, rest));
    assert Field(Field(id.sni, id.certificate), tail) == Field(id.sni, Field(id.certificate, tail));
    assert |Field(id.sni, id.certificate)| > |id.sni|;
  }

  /** So can a request with a bar in a protocol, whatever its identity. */
  lemma {:induction false} ShiftedShadows(tls: UpstreamTls) returns (setup: Setup)
    requires exists p | p in tls.alpnProtocols :: !Free('|', p)
    ensures Build(setup, IdentityOf(tls)).Ok?
    ensures Answer(setup, [Shifted(tls)], tls) != Build(setup, IdentityOf(tls))
  {
    BarsJoined(tls.alpnProtocols);
    NoBars(JoinWith(tls.alpnProtocols, ","));
    ShiftedSharesKey(tls);
    setup := SameKeyShadows(Shifted(tls), tls);
  }

  /** Whatever the set-up and the earlier requests, the client returned is the one a fresh build gives. */
  ghost predicate AlwaysFresh(tls: UpstreamTls) {
    forall setup: Setup, history: seq<UpstreamTls> :: Answer(setup, history, tls) == Build(setup, IdentityOf(tls))
  }

  /** The cached client always equals a freshly built one exactly for requests without any bar. */
  lemma {:induction false} FreshIffNoBar(tls: UpstreamTls)
    ensures AlwaysFresh(tls) <==> NoBar(tls)
  {
    if NoBar(tls) {
      forall setup: Setup, history: seq<UpstreamTls>
        ensures Answer(setup, history, tls) == Build(setup, IdentityOf(tls))
      {
        NoBarIsFresh(setup, history, tls);
      }
    } else if !BarFree(IdentityOf(tls)) {
      var setup := DoubleShadows(tls);
    } else {
      var setup := ShiftedShadows(tls);
    }
  }

  // ---------- the pool ----------

  class MtlsClientPool {
    const setup: Setup
    var clients: map<string, Client>

    constructor (setup: Setup)
      ensures this.setup == setup && clients == CacheAfter(setup, [])
    {
      this.setup := setup;
      clients := map[];
    }

    method GetClient(tls: UpstreamTls) returns (r: Result<Client, SetupError>)
      modifies this
      ensures (r, clients) == ClientFor(setup, old(clients), tls)
    {
      var key := CacheKey(tls);
      if key in clients {
        return Ok(clients[key]);
      }
      r := Build(setup, IdentityOf(tls));
      if r.Ok? {
        clients := clients[key := r.value];
      }
    }
  }
}
