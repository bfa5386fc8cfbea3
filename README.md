# Address-resolution dispatcher of go-reuse

The reuse package lets a process bind several sockets to the same local address by
setting `SO_REUSEADDR`/`SO_REUSEPORT` at socket-creation time. Its three dialers that
take the local address as a string (`Dial`, `DialTimeOut` and `DialTLS`) first turn it
into a typed `net.Addr` with `ResolveAddr`: a
package-level table (`addrMapping`, a variable that nothing updates) maps each of twelve network-family tags to one of four
forwarders (IP, TCP, UDP, Unix-domain), each of which calls the matching standard
library resolver (`net.ResolveIPAddr`, `net.ResolveTCPAddr`, `net.ResolveUDPAddr`,
`net.ResolveUnixAddr`). A tag missing from the table fails with
`net.UnknownNetworkError(network)`, and no resolver is called.

This project models that dispatcher in Dafny and proves the dispatch facts:

- `wrappers.dfy`: module `Wrappers`, with `Option` and `Result`. `Result` stands for
  Go's `(value, error)` pair, where exactly one side is meaningful.
- `addr.dfy`: module `Addr`, with the following parts.
  - `Strategy`: the four strategies.
  - `IPAddr`, `TCPAddr`, `UDPAddr`, `UnixAddr`: the four concrete address types.
  - `NetAddr`: a `net.Addr` interface value holding one of them.
  - `NetError`: `UnknownNetworkError(tag)`, or any other error from a resolver.
  - `Library`: the four library resolvers as uninterpreted function values, each
    returning its own concrete address type, as its Go signature declares.
  - `AddrMapping`: the table.
  - `StrategyFor`: the lookup as a total function.
  - The four forwarders, `Forward` (the call through a table entry), and `ResolveAddr`.
- `addr_properties.dfy`: module `AddrProperties`, with lemmas about the model.
  - Which tags select which resolver.
  - Exactly twelve tags are accepted. The lemmas check this against a separate
    description: a tag is a family base name plus one of that family's suffixes.
  - Every other string is rejected with itself, and no resolver is called.
  - The arguments and the library's answer pass through unchanged.
  - Only the selected resolver is ever consulted.
  - The result's address type matches the tag's family.

"No resolver is called" is stated as "the result is the same for every library".
"Only the selected resolver is consulted" is stated this way: two libraries that
give the same answer from the selected resolver, at these exact arguments, produce
the same result. They may differ everywhere else.

## Model

| member | source | states |
|---|---|---|
| `Addr.StrategyFor` | addr.go:7-20 | A selected strategy's base name (`ip`, `tcp`, `udp`, `unix`) is a prefix of the tag. A tag with no strategy is not a key of the table. |
| `Addr.ResolveIPAddr` | addr.go:30-32 | Succeeds exactly when `net.ResolveIPAddr` does, on the caller's unchanged strings. A success is that `IPAddr` as a `net.Addr`; a failure is its error unchanged. |
| `Addr.ResolveTCPAddr` | addr.go:34-36 | Succeeds exactly when `net.ResolveTCPAddr` does, on the caller's unchanged strings. A success is that `TCPAddr` as a `net.Addr`; a failure is its error unchanged. |
| `Addr.ResolveUDPAddr` | addr.go:38-40 | Succeeds exactly when `net.ResolveUDPAddr` does, on the caller's unchanged strings. A success is that `UDPAddr` as a `net.Addr`; a failure is its error unchanged. |
| `Addr.ResolveUnixAddr` | addr.go:42-44 | Succeeds exactly when `net.ResolveUnixAddr` does, on the caller's unchanged strings. A success is that `UnixAddr` as a `net.Addr`; a failure is its error unchanged. |
| `Addr.Forward` | addr.go:24-44 | Calling the forwarder a table entry holds for strategy `s`: a success always has the address type of `s`. |
| `Addr.ResolveAddr` | addr.go:22-28 | Success only happens for a tag in the table, and its address has the type of that tag's strategy. A tag outside the table gives exactly `UnknownNetworkError(network)`. |
| `AddrProperties.StrategyForIsFamilyTag` | addr.go:7-20 | The table selects strategy `s` for a tag exactly when the tag is `s`'s base name plus one of `s`'s suffixes. The suffixes are `""`, `4`, `6` for IP/TCP/UDP and `""`, `gram`, `packet` for Unix. Both directions are proved. |
| `AddrProperties.FamilyTagUnique` | addr.go:7-20 | No tag belongs to two families, so each accepted tag picks the strategy of its own group. |
| `AddrProperties.AcceptedTags` | addr.go:7-20 | The table's keys are exactly the twelve tags `addrMapping` lists, and there are twelve of them. `StrategyFor` is defined exactly on those tags. |
| `AddrProperties.IPTagsDispatchToIP` | addr.go:8-10 | `ip`, `ip4` and `ip6` resolve through the forwarder to `net.ResolveIPAddr`, with the original tag. |
| `AddrProperties.TCPTagsDispatchToTCP` | addr.go:11-13 | `tcp`, `tcp4` and `tcp6` resolve through the forwarder to `net.ResolveTCPAddr`, with the original tag. |
| `AddrProperties.UDPTagsDispatchToUDP` | addr.go:14-16 | `udp`, `udp4` and `udp6` resolve through the forwarder to `net.ResolveUDPAddr`, with the original tag. |
| `AddrProperties.UnixTagsDispatchToUnix` | addr.go:17-19 | `unix`, `unixgram` and `unixpacket` resolve through the forwarder to `net.ResolveUnixAddr`, with the original tag. |
| `AddrProperties.UnknownTagRejected` | addr.go:22-26 | A tag outside the table fails with an unknown-network error that carries that tag. The result is the same for every library, so no resolver is consulted and no address is returned. |
| `AddrProperties.RejectedExamples` | addr.go:22-26 | `""`, `"TCP"`, `"sctp"` and `"tcp5"` are each rejected with themselves. |
| `AddrProperties.AcceptedTagPassesThrough` | addr.go:23-24 | For an accepted tag, the result is the selected family's forwarder applied to the caller's unchanged `network` and `address`. Its answer is returned unchanged. |
| `AddrProperties.OnlySelectedResolverConsulted` | addr.go:23-44 | Only the selected resolver's answer at these exact arguments affects the result. A tag is never served by another family's resolver. |
| `AddrProperties.OneResolverPerTag` | addr.go:7-24 | For an accepted tag, the table's own entry for that tag serves every address text. The choice depends on the tag alone, never on the address. |
| `AddrProperties.ResultMatchesFamily` | addr.go:22-44 | Every successful resolution returns an address of the type of the tag's own family, as the reference defines it. No other family's type is substituted. |

## Left out

- interface.go is not part of this model. Every `Listen*`/`Dial*` function there hands off to `net` (`net.ListenConfig`, `net.Dialer`, `net.ListenTCP`/`ListenIP`/`ListenUnix`) or to `crypto/tls` (`tls.NewListener`, `tls.DialWithDialer`). Before that, it makes at most one call to `ResolveAddr` on the local address. What remains is socket I/O and library behaviour. This includes its ordering: `ListenTCP`, `ListenIP` and `ListenUnix` apply `Control` after the socket is bound, and return the listener even when `Control` fails.
- The `fmt.Errorf("resolving local addr: %w", ...)` wrapping is not modelled. `Dial`, `DialTimeOut` and `DialTLS` in interface.go apply it to errors from `ResolveAddr`. `ResolveAddr` itself returns errors unwrapped, and the model follows that code.
- control_windows.go is not part of this model. It makes one `setsockopt(SO_REUSEADDR)` call through `x/sys/windows` on a raw handle, which is kernel state reached by a syscall.
- The `Enabled` flag is not modelled. It is a package variable initialised to `false` (interface.go:31), and none of addr.go, interface.go or control_windows.go reads it.
- How the library resolvers work inside is not modelled. That covers host:port parsing, IP literals, DNS lookups and blocking. The resolvers are uninterpreted. An error they return is either an `UnknownNetworkError` or any other error, kept by its text (`NetError.Other`).
- Go's nil values are not modelled. That includes a nil `net.Addr` beside a non-nil error, and a typed nil inside an interface. `Result` says that exactly one of address and error is present.
- Go strings are byte strings; tags are modelled as `string` (sequences of `char`). All twelve tags are ASCII, so the two agree on every comparison the table makes.
