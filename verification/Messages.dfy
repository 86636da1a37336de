/**
 Decoded xDS messages, reduced to the fields the client reads.
 Wire decoding is a partial function: a packed message carries what decoding its bytes yields.
 */
module Messages {
  import opened Wrappers
  import opened Config

  /** An `Any` whose bytes are decoded as a `T`; `None` when they do not decode. */
  datatype Packed<T> = Packed(typeUrl: string, message: Option<T>)

  // ---------- routes ----------

  datatype PathSpecifier = PrefixPath(prefix: string) | ExactPath(path: string) | RegexPath(regex: string)

  datatype HeaderSpecifier = ExactHeader(value: string) | RegexHeader(regex: string)

  datatype HeaderMatcher = HeaderMatcher(name: string, specifier: Option<HeaderSpecifier>)

  datatype XRouteMatch = XRouteMatch(path: Option<PathSpecifier>, headers: seq<HeaderMatcher>)

  datatype ClusterWeight = ClusterWeight(name: string, weight: Option<u32>)

  datatype ClusterSpecifier = OneCluster(name: string) | WeightedClusters(clusters: seq<ClusterWeight>)

  datatype Action = ForwardTo(specifier: Option<ClusterSpecifier>) | NonForwarding

  datatype XRoute = XRoute(name: string, matcher: Option<XRouteMatch>, action: Option<Action>)

  datatype XVirtualHost = XVirtualHost(name: string, domains: seq<string>, routes: seq<XRoute>)

  datatype RouteConfiguration = RouteConfiguration(name: string, virtualHosts: seq<XVirtualHost>)

  // ---------- listeners ----------

  datatype RouteSpecifier = Rds(routeConfigName: string) | InlineRoutes(config: RouteConfiguration)

  datatype ConnectionManager = ConnectionManager(routeSpecifier: Option<RouteSpecifier>)

  datatype Address = SocketAddress(address: string, port: Option<u32>) | Pipe(path: string) | NoAddress

  datatype Filter = Filter(name: string, config: Option<Packed<ConnectionManager>>)

  datatype FilterChain = FilterChain(filters: seq<Filter>)

  datatype XListener = XListener(
    name: string, address: Option<Address>,
    apiListener: Option<Packed<ConnectionManager>>, filterChains: seq<FilterChain>)

  // ---------- clusters and endpoints ----------

  datatype HostIdentifier = EndpointHost(address: Option<Address>) | EndpointName(name: string)

  datatype LbEndpoint = LbEndpoint(host: Option<HostIdentifier>, healthStatus: int)

  datatype Locality = Locality(lbEndpoints: seq<LbEndpoint>)

  datatype LoadAssignment = LoadAssignment(clusterName: string, localities: seq<Locality>)

  /** `validation` is the provider instance of a combined validation context. */
  datatype CommonTls = CommonTls(certificate: Option<string>, validation: Option<string>, alpnProtocols: seq<string>)

  datatype UpstreamTlsContext = UpstreamTlsContext(sni: string, common: Option<CommonTls>)

  datatype XCluster = XCluster(
    name: string, edsServiceName: Option<string>, loadAssignment: Option<LoadAssignment>,
    transportSocket: Option<Packed<UpstreamTlsContext>>)

  // ---------- discovery ----------

  /** The four type URLs the client knows, and any other. */
  datatype TypeUrl = ListenerType | RouteType | ClusterType | EndpointType | OtherType(url: string)

  /** A response's resource: what each of the four decoders yields on its bytes. */
  datatype Resource = Resource(
    asListener: Option<XListener>, asRoute: Option<RouteConfiguration>,
    asCluster: Option<XCluster>, asAssignment: Option<LoadAssignment>)

  datatype Response = Response(typeUrl: TypeUrl, version: string, nonce: string, resources: seq<Resource>)

  datatype Request = Request(typeUrl: TypeUrl, names: seq<string>, version: string, nonce: string)
}
