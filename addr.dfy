/**
 * The address-resolution dispatcher of the reuse package: a fixed table from
 * network-family tags to one of four resolution strategies, and `ResolveAddr`,
 * which looks the tag up and forwards to the standard library resolver of that
 * strategy, or fails with an unknown-network error.
 *
 * The library resolvers (`net.ResolveIPAddr`, `net.ResolveTCPAddr`,
 * `net.ResolveUDPAddr`, `net.ResolveUnixAddr`) parse addresses and may query DNS;
 * they are not modelled and enter as uninterpreted function values.
 */
module Addr {
  import opened Wrappers

  /** The four resolution strategies the table can select. */
  datatype Strategy = IP | TCP | UDP | Unix

  /** `net.IPAddr`: the result type of `net.ResolveIPAddr`. */
  datatype IPAddr = IPAddr(ip: seq<bv8>, zone: string)

  /** `net.TCPAddr`: the result type of `net.ResolveTCPAddr`. */
  datatype TCPAddr = TCPAddr(ip: seq<bv8>, port: int, zone: string)

  /** `net.UDPAddr`: the result type of `net.ResolveUDPAddr`. */
  datatype UDPAddr = UDPAddr(ip: seq<bv8>, port: int, zone: string)

  /** `net.UnixAddr`: the result type of `net.ResolveUnixAddr`. */
  datatype UnixAddr = UnixAddr(name: string, net: string)

  /** A `net.Addr` interface value: one of the four concrete address types. */
  datatype NetAddr =
    | AsIPAddr(ipAddr: IPAddr)
    | AsTCPAddr(tcpAddr: TCPAddr)
    | AsUDPAddr(udpAddr: UDPAddr)
    | AsUnixAddr(unixAddr: UnixAddr)
  {
    /** The strategy whose resolver produces an address of this type. */
    function Kind(): Strategy {
      match this
      case AsIPAddr(_) => IP
      case AsTCPAddr(_) => TCP
      case AsUDPAddr(_) => UDP
      case AsUnixAddr(_) => Unix
    }
  }

  /**
   * The errors a resolution can end in: `net.UnknownNetworkError` carrying the
   * rejected tag, or any other error a library resolver reports (a parse error,
   * a DNS failure), kept by its text.
   */
  datatype NetError = UnknownNetworkError(network: string) | Other(description: string)

  /**
   * The four standard library resolvers, each `(network, address)` to its own
   * concrete address type or an error, as their Go signatures declare.
   */
  datatype Library = Library(
    netResolveIPAddr: (string, string) -> Result<IPAddr, NetError>,
    netResolveTCPAddr: (string, string) -> Result<TCPAddr, NetError>,
    netResolveUDPAddr: (string, string) -> Result<UDPAddr, NetError>,
    netResolveUnixAddr: (string, string) -> Result<UnixAddr, NetError>)

  /** The package's `addrMapping` table; it is never updated. */
  const AddrMapping: map<string, Strategy> := map[
    "ip" := IP, "ip4" := IP, "ip6" := IP,
    "tcp" := TCP, "tcp4" := TCP, "tcp6" := TCP,
    "udp" := UDP, "udp4" := UDP, "udp6" := UDP,
    "unix" := Unix, "unixgram" := Unix, "unixpacket" := Unix
  ]

  /** The family name every tag of a strategy starts with. */
  function BaseName(s: Strategy): string {
    match s
    case IP => "ip"
    case TCP => "tcp"
    case UDP => "udp"
    case Unix => "unix"
  }

  /** The table lookup as a total function: the strategy for a tag, if any. */
  function StrategyFor(network: string): (r: Option<Strategy>)
    ensures r.Some? ==> BaseName(r.value) <= network
    ensures r.None? ==> network !in AddrMapping
  {
    if network in AddrMapping then Some(AddrMapping[network]) else None
  }

  /**
   * `resolveIPAddr`: hands both strings to `net.ResolveIPAddr` and returns its
   * address as a `net.Addr`, or its error as it is.
   */
  function ResolveIPAddr(lib: Library, network: string, address: string): (r: Result<NetAddr, NetError>)
    ensures r.Success? <==> lib.netResolveIPAddr(network, address).Success?
    ensures r.Success? ==> r == Success(AsIPAddr(lib.netResolveIPAddr(network, address).value))
    ensures r.Failure? ==> r.error == lib.netResolveIPAddr(network, address).error
  {
    match lib.netResolveIPAddr(network, address)
    case Success(a) => Success(AsIPAddr(a))
    case Failure(e) => Failure(e)
  }

  /**
   * `resolveTCPAddr`: hands both strings to `net.ResolveTCPAddr` and returns its
   * address as a `net.Addr`, or its error as it is.
   */
  function ResolveTCPAddr(lib: Library, network: string, address: string): (r: Result<NetAddr, NetError>)
    ensures r.Success? <==> lib.netResolveTCPAddr(network, address).Success?
    ensures r.Success? ==> r == Success(AsTCPAddr(lib.netResolveTCPAddr(network, address).value))
    ensures r.Failure? ==> r.error == lib.netResolveTCPAddr(network, address).error
  {
    match lib.netResolveTCPAddr(network, address)
    case Success(a) => Success(AsTCPAddr(a))
    case Failure(e) => Failure(e)
  }

  /**
   * `resolveUDPAddr`: hands both strings to `net.ResolveUDPAddr` and returns its
   * address as a `net.Addr`, or its error as it is.
   */
  function ResolveUDPAddr(lib: Library, network: string, address: string): (r: Result<NetAddr, NetError>)
    ensures r.Success? <==> lib.netResolveUDPAddr(network, address).Success?
    ensures r.Success? ==> r == Success(AsUDPAddr(lib.netResolveUDPAddr(network, address).value))
    ensures r.Failure? ==> r.error == lib.netResolveUDPAddr(network, address).error
  {
    match lib.netResolveUDPAddr(network, address)
    case Success(a) => Success(AsUDPAddr(a))
    case Failure(e) => Failure(e)
  }

  /**
   * `resolveUnixAddr`: hands both strings to `net.ResolveUnixAddr` and returns
   * its address as a `net.Addr`, or its error as it is.
   */
  function ResolveUnixAddr(lib: Library, network: string, address: string): (r: Result<NetAddr, NetError>)
    ensures r.Success? <==> lib.netResolveUnixAddr(network, address).Success?
    ensures r.Success? ==> r == Success(AsUnixAddr(lib.netResolveUnixAddr(network, address).value))
    ensures r.Failure? ==> r.error == lib.netResolveUnixAddr(network, address).error
  {
    match lib.netResolveUnixAddr(network, address)
    case Success(a) => Success(AsUnixAddr(a))
    case Failure(e) => Failure(e)
  }

  /**
   * The call `v(network, address)` through the forwarder a table entry holds:
   * a success always has the address type of the strategy's family.
   */
  function Forward(lib: Library, s: Strategy, network: string, address: string): (r: Result<NetAddr, NetError>)
    ensures r.Success? ==> r.value.Kind() == s
  {
    match s
    case IP => ResolveIPAddr(lib, network, address)
    case TCP => ResolveTCPAddr(lib, network, address)
    case UDP => ResolveUDPAddr(lib, network, address)
    case Unix => ResolveUnixAddr(lib, network, address)
  }

  /** `ResolveAddr`: dispatch on the tag, or reject it. */
  function ResolveAddr(lib: Library, network: string, address: string): (r: Result<NetAddr, NetError>)
    ensures r.Success? ==> StrategyFor(network).Some? && r.value.Kind() == StrategyFor(network).value
    ensures StrategyFor(network).None? ==> r == Failure(UnknownNetworkError(network))
  {
    match StrategyFor(network)
    case Some(s) => Forward(lib, s, network, address)
    case None => Failure(UnknownNetworkError(network))
  }
}
