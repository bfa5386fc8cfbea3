/**
 * Properties of the address-resolution dispatcher: which tags select which
 * resolver, that every other tag is rejected with itself, that the arguments and
 * the library's answer pass through untouched, and that no other family's
 * resolver is ever consulted.
 */
module AddrProperties {
  import opened Wrappers
  import opened Addr

  /** The tag suffixes a family accepts after its base name. */
  function Suffixes(s: Strategy): set<string> {
    match s
    case IP => {"", "4", "6"}
    case TCP => {"", "4", "6"}
    case UDP => {"", "4", "6"}
    case Unix => {"", "gram", "packet"}
  }

  /**
   * Reference description of the table, independent of it: a tag of family `s`
   * is the family's base name followed by one of its suffixes.
   */
  ghost predicate FamilyTag(network: string, s: Strategy) {
    exists suffix :: suffix in Suffixes(s) && network == BaseName(s) + suffix
  }

  /** The table selects `s` for exactly the tags the reference assigns to `s`. */
  lemma StrategyForIsFamilyTag(network: string, s: Strategy)
    ensures StrategyFor(network) == Some(s) <==> FamilyTag(network, s)
  {
    if StrategyFor(network) == Some(s) {
      var base := BaseName(s);
      var suffix := network[|base|..];
      assert network == base + suffix;
      assert suffix in Suffixes(s);
    }
    if FamilyTag(network, s) {
      var suffix :| suffix in Suffixes(s) && network == BaseName(s) + suffix;
      match s
      case IP =>
        if suffix == "" { assert network == "ip"; }
        else if suffix == "4" { assert network == "ip4"; }
        else { assert network == "ip6"; }
      case TCP =>
        if suffix == "" { assert network == "tcp"; }
        else if suffix == "4" { assert network == "tcp4"; }
        else { assert network == "tcp6"; }
      case UDP =>
        if suffix == "" { assert network == "udp"; }
        else if suffix == "4" { assert network == "udp4"; }
        else { assert network == "udp6"; }
      case Unix =>
        if suffix == "" { assert network == "unix"; }
        else if suffix == "gram" { assert network == "unixgram"; }
        else { assert network == "unixpacket"; }
    }
  }

  /** No tag belongs to two families. */
  lemma {:induction false} FamilyTagUnique(network: string, s1: Strategy, s2: Strategy)
    requires FamilyTag(network, s1) && FamilyTag(network, s2)
    ensures s1 == s2
  {
    StrategyForIsFamilyTag(network, s1);
    StrategyForIsFamilyTag(network, s2);
  }

  /** The twelve tags `addrMapping` lists, written out. */
  const KnownTags: set<string> := {
    "ip", "ip4", "ip6", "tcp", "tcp4", "tcp6",
    "udp", "udp4", "udp6", "unix", "unixgram", "unixpacket"}

  /** Exactly twelve tags are accepted, and these are they. */
  lemma AcceptedTags()
    ensures AddrMapping.Keys == KnownTags
    ensures |AddrMapping| == 12
    ensures forall network :: StrategyFor(network).Some? <==> network in KnownTags
  {
    assert AddrMapping.Keys == KnownTags;
    KnownTagsAreDistinct();
  }

  /** The twelve tags are pairwise distinct strings. */
  lemma KnownTagsAreDistinct()
    ensures |KnownTags| == 12
  {
  }

  /** "ip", "ip4" and "ip6" are all served by the forwarder to `net.ResolveIPAddr`. */
  lemma IPTagsDispatchToIP(lib: Library, address: string)
    ensures ResolveAddr(lib, "ip", address) == ResolveIPAddr(lib, "ip", address)
    ensures ResolveAddr(lib, "ip4", address) == ResolveIPAddr(lib, "ip4", address)
    ensures ResolveAddr(lib, "ip6", address) == ResolveIPAddr(lib, "ip6", address)
  {
  }

  /** "tcp", "tcp4" and "tcp6" are all served by the forwarder to `net.ResolveTCPAddr`. */
  lemma TCPTagsDispatchToTCP(lib: Library, address: string)
    ensures ResolveAddr(lib, "tcp", address) == ResolveTCPAddr(lib, "tcp", address)
    ensures ResolveAddr(lib, "tcp4", address) == ResolveTCPAddr(lib, "tcp4", address)
    ensures ResolveAddr(lib, "tcp6", address) == ResolveTCPAddr(lib, "tcp6", address)
  {
  }

  /** "udp", "udp4" and "udp6" are all served by the forwarder to `net.ResolveUDPAddr`. */
  lemma UDPTagsDispatchToUDP(lib: Library, address: string)
    ensures ResolveAddr(lib, "udp", address) == ResolveUDPAddr(lib, "udp", address)
    ensures ResolveAddr(lib, "udp4", address) == ResolveUDPAddr(lib, "udp4", address)
    ensures ResolveAddr(lib, "udp6", address) == ResolveUDPAddr(lib, "udp6", address)
  {
  }

  /** "unix", "unixgram" and "unixpacket" are all served by the forwarder to `net.ResolveUnixAddr`. */
  lemma UnixTagsDispatchToUnix(lib: Library, address: string)
    ensures ResolveAddr(lib, "unix", address) == ResolveUnixAddr(lib, "unix", address)
    ensures ResolveAddr(lib, "unixgram", address) == ResolveUnixAddr(lib, "unixgram", address)
    ensures ResolveAddr(lib, "unixpacket", address) == ResolveUnixAddr(lib, "unixpacket", address)
  {
  }

  /**
   * A tag outside the table fails with an unknown-network error carrying that
   * very tag, whatever the library: no resolver is consulted.
   */
  lemma UnknownTagRejected(lib1: Library, lib2: Library, network: string, address: string)
    requires network !in AddrMapping
    ensures ResolveAddr(lib1, network, address) == Failure(UnknownNetworkError(network))
    ensures ResolveAddr(lib1, network, address) == ResolveAddr(lib2, network, address)
  {
  }

  /** Near misses are rejected: the empty tag, a capitalised tag, an unsupported family. */
  lemma RejectedExamples(lib: Library, address: string)
    ensures ResolveAddr(lib, "", address) == Failure(UnknownNetworkError(""))
    ensures ResolveAddr(lib, "TCP", address) == Failure(UnknownNetworkError("TCP"))
    ensures ResolveAddr(lib, "sctp", address) == Failure(UnknownNetworkError("sctp"))
    ensures ResolveAddr(lib, "tcp5", address) == Failure(UnknownNetworkError("tcp5"))
  {
  }

  /**
   * For an accepted tag, the forwarder of the selected family receives the
   * caller's two strings unchanged, and its answer is the result as it is.
   */
  lemma AcceptedTagPassesThrough(lib: Library, network: string, address: string, s: Strategy)
    requires StrategyFor(network) == Some(s)
    ensures s == IP ==> ResolveAddr(lib, network, address) == ResolveIPAddr(lib, network, address)
    ensures s == TCP ==> ResolveAddr(lib, network, address) == ResolveTCPAddr(lib, network, address)
    ensures s == UDP ==> ResolveAddr(lib, network, address) == ResolveUDPAddr(lib, network, address)
    ensures s == Unix ==> ResolveAddr(lib, network, address) == ResolveUnixAddr(lib, network, address)
  {
  }

  /** Two libraries give the same answer from the resolver of family `s` at these arguments. */
  ghost predicate AgreeOn(lib1: Library, lib2: Library, s: Strategy, network: string, address: string) {
    match s
    case IP => lib1.netResolveIPAddr(network, address) == lib2.netResolveIPAddr(network, address)
    case TCP => lib1.netResolveTCPAddr(network, address) == lib2.netResolveTCPAddr(network, address)
    case UDP => lib1.netResolveUDPAddr(network, address) == lib2.netResolveUDPAddr(network, address)
    case Unix => lib1.netResolveUnixAddr(network, address) == lib2.netResolveUnixAddr(network, address)
  }

  /**
   * Only the selected resolver's answer at exactly these arguments matters: two
   * libraries that agree on it (and may differ everywhere else) give the same
   * result, so a tag is never served by another family's resolver.
   */
  lemma OnlySelectedResolverConsulted(lib1: Library, lib2: Library, network: string, address: string)
    requires StrategyFor(network).Some? ==> AgreeOn(lib1, lib2, StrategyFor(network).value, network, address)
    ensures ResolveAddr(lib1, network, address) == ResolveAddr(lib2, network, address)
  {
  }

  /** Every address text given with `network` is answered by the forwarder for `s`. */
  ghost predicate ServesTag(lib: Library, network: string, s: Strategy) {
    forall address :: ResolveAddr(lib, network, address) == Forward(lib, s, network, address)
  }

  /**
   * The choice of resolver depends on the tag alone: the table's entry for an
   * accepted tag serves every address text given with it.
   */
  lemma OneResolverPerTag(lib: Library, network: string)
    requires network in AddrMapping
    ensures ServesTag(lib, network, AddrMapping[network])
  {
  }

  /**
   * A successful resolution yields an address of the type the tag's family
   * calls for: no other family's type is ever substituted.
   */
  lemma ResultMatchesFamily(lib: Library, network: string, address: string)
    ensures ResolveAddr(lib, network, address).Success? ==>
      exists s :: FamilyTag(network, s) && ResolveAddr(lib, network, address).value.Kind() == s
  {
    if ResolveAddr(lib, network, address).Success? {
      var s := StrategyFor(network).value;
      StrategyForIsFamilyTag(network, s);
    }
  }
}
